# Genetic path planning of an exploring robot

This project models the path planner of an exploring robot that uses a genetic
search. The robot lives in a 300 x 300 tile world. It knows only the part of
the world it has observed: its robot map. On each planning round it picks up
to eight frontier directions. These are four cardinal targets eight tiles away
and four diagonal targets four tiles away. For each direction it runs a genetic
search over fixed-length sequences of moves, called chromosomes:

- evaluate every candidate by walking it over the robot map;
- select the best candidate and one drawn by rank;
- cross the two over into six children;
- mutate the children.

The winner of each direction is combined with the others. A round is accepted
once the combined best ends within one step of its target. Before the robot
sets off, it checks that its energy covers the moves plus the sensing after
them.

The repository carries two versions of the engine:

- **`src/main.rs`** has the older one. Its moves carry a single "destroy" flag, and a refused move is redrawn with one plain draw.
- **`src/genetic_algorithm.rs`** has the newer one. Its moves carry a destroy and a deposit flag. A refused move is repaired by a rejection loop, and the evaluation also counts shallow water and credits coins, garbage and trees.

Selection, crossover, mutation and the backtracking count are the same code in
both files. They are modelled once, in `Population`, with the gene type as a
parameter.

Modules:

- `World`: the constants of the crate root, tiles, the robot map (`seq<seq<Cell>>`), `is_not_visualize`, `is_good_tile` and the per-step cost.
- `Interface`: the movement primitive of the simulation library.
- `Actions`: the two-flag move type and its conversions.
- `Frontier`: the eight frontier directions and their targets.
- `Population`: the chromosome record, selection, crossover, mutation and the backtracking count.
- `Helpers`: `src/helpers_functions.rs`.
- `Genetic`: the newer evaluator.
- `Generator`: the newer random initial chromosome.
- `Legacy`: the older move type, generator and evaluator.
- `Planner`: the robot's visited grid and scan window, the frontier choice, the energy projection, and the winner pick and combination of the search threads.

Randomness is modelled as caller-supplied streams of draws, one stream per
`gen_range` call site. For example, `Draw5` is a draw of `gen_range(0..5)`.
A rejection loop that would keep drawing reports that it ran out of draws.

A stateful entity of the source becomes a Dafny class:

- `GeneticSearch` becomes `Population.GeneticSearch`.
- `MyRobot`'s visited grid becomes `Planner.MyRobot`.

Its methods are proved against specification functions: `Genetic.Run`,
`Legacy.Run`, `Generator.Generate`, `Population.MutateAll`, `Planner.Keep`,
`Planner.WinnerFrom` and `Planner.AggregateFrom`.

Where the code and its description differ, the model follows the code:

- **Collected content adds cost.** The newer evaluator ADDS a collected content's cost to the candidate's cost (`src/genetic_algorithm.rs:361`). It does not subtract it.
- **Cost never breaks a tie.** The combination of the thread results never compares costs. Its tie-break on cost sits inside a strict weight test and cannot be reached (`src/main.rs:867-869`).
- **The scan window is lopsided.** `get_from_to` builds half-open ranges. A range therefore reaches `distance + 1` cells below the robot's coordinate and `distance` cells above it.

## Model

| member | source | states |
|---|---|---|
| World.IsNotVisualize | src/main.rs:1041-1046 | A coordinate is refused exactly when it lies outside the 300 x 300 world; every admitted coordinate indexes a world-size robot map |
| World.IsGoodTile | src/helpers_functions.rs:36-47 | An unobserved cell is refused; deep water, lava and walls are refused; every other observed tile is accepted |
| World.StepCost | src/genetic_algorithm.rs:497-523 | The step cost is the terrain cost of the target, plus the square of the height difference when the target is higher; so it is never below the terrain cost and a climb adds at least the height difference |
| World.StepCostMonotone | src/genetic_algorithm.rs:517-522 | For the same terrain, a higher target never costs less to enter |
| Actions.ConvertToInt | src/genetic_algorithm.rs:134-142 | Top steps to (-1, 0), Bottom to (1, 0), Left to (0, -1), Right to (0, 1), whatever the flags; so every move is a unit step along one axis, and the step is (0, 0) exactly for the null move |
| Actions.IsReverse | src/genetic_algorithm.rs:29-39 | `a` reverses `other` exactly when `a` is a move whose step cancels the step of `other` |
| Actions.IsReverseLaws | src/genetic_algorithm.rs:29-39 | Reversal is symmetric, irreflexive and blind to the flags; the null move neither reverses nor is reversed |
| Actions.Property | src/genetic_algorithm.rs:41-49 | A move is handed to the primitive whose offset is its own step; the null move is handed over as Down |
| Actions.RandomInputDir | src/genetic_algorithm.rs:51-62 | A drawn action carries no flag |
| Actions.RandomInputDirOnto | src/genetic_algorithm.rs:51-62 | Each of the five kinds of action is drawn by exactly one draw |
| Actions.RandomInputWithoutI | src/genetic_algorithm.rs:64-110 | The drawn action carries no flag and is of a different kind than `i` |
| Actions.RandomInputWithoutIOnto | src/genetic_algorithm.rs:64-110 | Every kind other than the kind of `i` is reached by some draw |
| Actions.ConvertIntToInputDir | src/genetic_algorithm.rs:124-132 | The action's step is the difference of the two points; the action is null exactly when the points are not 4-neighbours |
| Actions.ConvertRoundTrip | src/genetic_algorithm.rs:124-142 | Converting the step of a move back gives the move with its flags cleared |
| Actions.ConvertToInputDir | src/genetic_algorithm.rs:112-122 | One action per coordinate of the path, each the step from the coordinate before it |
| Actions.ConvertedPathRetraces | src/genetic_algorithm.rs:112-132 | Replaying the converted actions of a 4-connected path visits the path's coordinates in order |
| Frontier.GetNextPosition | src/helpers_functions.rs:23-34 | A cardinal direction aims ONE_DIRECTION_DISTANCE along one axis, a diagonal one DISTANCE along both, with the signs its name gives |
| Frontier.NextPositionsDistinct | src/helpers_functions.rs:23-34 | The eight targets are pairwise distinct; a direction is cardinal exactly when its target lies on an axis |
| Frontier.New | src/main.rs:460-473 | All eight directions, each once, in the fixed order |
| Helpers.DirectionValueAgrees | src/helpers_functions.rs:13-21 | The helpers' step table equals the move type's own; the step is (0, 0) exactly for the null move |
| Helpers.IsNotVisualize | src/helpers_functions.rs:49-55 | As written: admits every coordinate from 0 to WORLD_SIZE inclusive on both axes |
| Helpers.IsNotVisualizeAdmitsEdge | src/helpers_functions.rs:49-55 | Row WORLD_SIZE passes the helpers' test but is no row of the robot map; the crate root's test refuses it |
| Helpers.IsNotVisualizeVersions | src/helpers_functions.rs:49-55 | The two bounds tests differ exactly on the far edges; whatever the crate root's test admits, the helpers' test admits too |
| Helpers.TraceStep | src/helpers_functions.rs:74-112 | A null move changes nothing; a move out of the world panics; a move into an unobserved cell adds nothing and leaves the cursor in place; a deposit move onto an observed cell adds the deposit cost; a plain move between observed cells adds the step cost; every counted move puts the cursor on its target |
| Helpers.Trace | src/helpers_functions.rs:74-113 | Costing a path never lowers the cost already counted |
| Helpers.TraceAppend | src/helpers_functions.rs:74-113 | Costing p + q is costing q from where p ends, with p's cost, and a panic in p is a panic of the whole |
| Helpers.NullPathIsFree | src/helpers_functions.rs:80 | A path of null moves costs nothing and leaves the robot in place |
| Helpers.SingleMoveCost | src/helpers_functions.rs:104-106 | A plain move between observed tiles costs exactly the step cost and moves the robot onto its target |
| Helpers.UnseenMoveIsSkipped | src/helpers_functions.rs:80 | A move into an unobserved cell is skipped: the rest of the path is costed from where the robot stands, with nothing added |
| Helpers.DepositMoveCost | src/helpers_functions.rs:83-111 | A deposit move onto an observed cell costs the deposit, from whatever cell, and the rest of the path is costed from its target |
| Helpers.CalculateCostDir | src/helpers_functions.rs:66-116 | The loop panics exactly when the specification does, and otherwise returns the cost `Helpers.TraceStep` and `Helpers.TraceAppend` characterise move by move |
| Population.GeneticSearch.Default | src/genetic_algorithm.rs:158-170 | The placeholder candidate: empty vector, cost, distance and weight INFINITE, start (0, 0) |
| Population.GeneticSearch.NewWithVector | src/genetic_algorithm.rs:188-197 | A not yet evaluated candidate with the given vector and start: cost INFINITE, distance 100, weight 1000 |
| Population.Distance | src/genetic_algorithm.rs:391 | The Manhattan distance to a destination that may lie outside the world: never negative, at least the gap on each axis, and zero exactly at the destination |
| Population.Insert | src/genetic_algorithm.rs:428-435 | Inserting into a sorted population keeps it sorted by (distance, weight) and adds exactly that candidate |
| Population.SortByKey | src/genetic_algorithm.rs:428-435 | The sorted population is ordered by distance, then weight, and is a permutation of the input |
| Population.ProbabilityChoice | src/genetic_algorithm.rs:437-448 | The second parent's rank is between 1 and 7; rank 7 comes only from the draw 18 |
| Population.ChoiceFrequencies | src/genetic_algorithm.rs:437-448 | Of the 28 draws, 8 - k choose rank k: better ranks are likelier |
| Population.RemoveAt | src/genetic_algorithm.rs:455-456 | Removing an element leaves one element fewer, the others unchanged as a multiset |
| Population.GeneticSelection | src/genetic_algorithm.rs:427-459 | The first parent is the head of the sorted population and precedes every candidate; the second is at the drawn rank; the rest is the population without the two, as a multiset |
| Population.Child | src/genetic_algorithm.rs:482-486 | A child takes each third, first, middle and rest, from the parent its template names |
| Population.TemplatesAreMixed | src/genetic_algorithm.rs:488-493 | The six templates are exactly the patterns that copy neither parent whole, and each third of each parent reaches some child |
| Population.NewChild | src/genetic_algorithm.rs:488 | A fresh, not yet evaluated candidate at (x, y) whose vector is the template's child |
| Population.GeneticCrossover | src/genetic_algorithm.rs:479-494 | The population becomes six distinct fresh children, the k-th following the k-th template, all at (x, y) and not yet evaluated |
| Population.Redraw | src/genetic_algorithm.rs:468-469 | The redrawn gene differs from the one it replaces and consumes at least one draw |
| Population.MutateGenesSpec | src/genetic_algorithm.rs:463-475 | Mutation keeps a vector's length, rewrites exactly the genes whose probability draw is 0, and each rewritten gene differs from the old one |
| Population.MutateAllShape | src/genetic_algorithm.rs:461-477 | Mutation keeps the population's size and each vector's length |
| Population.RedrawGene | src/genetic_algorithm.rs:468-469 | The redraw loop ends exactly when the specification finds a different gene, with that gene and the draws left |
| Population.MutateVector | src/genetic_algorithm.rs:464-475 | One candidate's vector becomes its mutation; no other field changes |
| Population.GeneticMutation | src/genetic_algorithm.rs:461-477 | Every candidate's vector becomes its mutation, in order, from one shared stream of draws; no other field changes |
| Population.BackScanBalance | src/genetic_algorithm.rs:401-415 | Twice the backtracks plus what stays on the stack is the number of non-null moves scanned |
| Population.BacktrackingBound | src/genetic_algorithm.rs:401-415 | At most half of the non-null moves are counted as backtracks |
| Population.CountBacktracking | src/genetic_algorithm.rs:401-415 | The loop returns the backtracking count, which is at most half of the non-null moves |
| Genetic.Clamp | src/genetic_algorithm.rs:328-333 | A negative coordinate becomes 0 and any other is unchanged; so a guarded coordinate is never negative and never below the input |
| Genetic.Repair | src/genetic_algorithm.rs:283-320 | A repaired gene differs from the original (flags included), its guarded target is in the world, observed and good, and it is the original or carries no flag |
| Genetic.Flagged | src/genetic_algorithm.rs:366-372 | The collected move keeps its kind, sets the destroy flag and clears the deposit flag |
| Genetic.Land | src/genetic_algorithm.rs:335-388 | Landing spends no draw and counts no null block; the gene keeps its kind; the cost grows by the step cost when the gene moves, plus the content's cost on the first visit to a coin, garbage or tree; shallow water adds one to its count; the cursor enters the target exactly when it is a good tile |
| Genetic.Step | src/genetic_algorithm.rs:266-389 | With the corrected bounds test: after a round the cursor still stands on an observed cell of the world |
| Genetic.Run | src/genetic_algorithm.rs:266-390 | With the corrected bounds test: after the evaluation loop the cursor stands on an observed cell of the world |
| Genetic.LandFacts | src/genetic_algorithm.rs:353-382 | Landing never sets a deposit flag; it sets the destroy flag only with a new credit; each credited cell holds a coin, garbage or tree and is credited once |
| Genetic.StepRepairs | src/genetic_algorithm.rs:280-325 | A move onto an observed bad tile is repaired and lands on the repaired gene's target, or the round is stuck when the draws run out |
| Genetic.StepLands | src/genetic_algorithm.rs:335-388 | A move onto a good tile lands on it unchanged |
| Genetic.StepFacts | src/genetic_algorithm.rs:266-389 | A round counts at most one null block, never lowers the cost, adds at most one to the shallow-water count, rests the cursor on the start or a good tile, never sets a deposit flag and keeps the content credit consistent |
| Genetic.RunShape | src/genetic_algorithm.rs:266-390 | The evaluation keeps the number of genes, counts at most one null block and one shallow-water step per gene, never lowers the cost, never sets a deposit flag, sets no more destroy flags than credits and keeps the credit consistent |
| Genetic.OffMapBecomesNull | src/genetic_algorithm.rs:274-278 | With the corrected bounds test: a move out of the world or onto an unobserved cell becomes the null move, counts a null block and spends no draw |
| Genetic.GoodMoveIsKept | src/genetic_algorithm.rs:335-388 | A move onto a good tile keeps its kind, moves the robot there, counts no null block and spends no draw |
| Genetic.GoodMoveIsCharged | src/genetic_algorithm.rs:335-372 | A move onto a good tile pays the step cost; on the first visit to a coin, garbage or tree it also pays that content's cost, counts one destroyed object and sets the destroy flag; otherwise neither |
| Genetic.BadMoveIsRepaired | src/genetic_algorithm.rs:280-325 | A move onto a bad tile counts a null block and is replaced by an accepted gene of another kind, or of the same kind when the original carried a flag |
| Genetic.EvaluationFacts | src/genetic_algorithm.rs:247-422 | A whole evaluation keeps the vector's length, counts at most one null block and one shallow-water step per gene and one credit per credited cell, and at most half the genes are backtracks |
| Genetic.BacktrackingExample | src/genetic_algorithm.rs:394-415 | [Right, Right, Left, Left] counts two backtracks; a null move between a move and its reverse does not break the pair; [Right, Left, Right] counts one |
| Genetic.RepairMove | src/genetic_algorithm.rs:299-320 | The repair loop ends exactly when the specification finds a gene, with that gene and the draws left |
| Genetic.EvaluateGene | src/genetic_algorithm.rs:268-388 | One round of the loop computes exactly the specification's round |
| Genetic.RepairGene | src/genetic_algorithm.rs:280-325 | The round of a refused move computes exactly the specification's round |
| Genetic.LandGene | src/genetic_algorithm.rs:328-388 | The second half of a round computes exactly the specification's landing |
| Genetic.GeneticCost | src/genetic_algorithm.rs:247-422 | The candidate's genes become the evaluated genes; its cost, distance and weight are those of the evaluation, whose per-move cost `Genetic.Land` and `Genetic.GoodMoveIsCharged` state; the start is unchanged |
| Generator.RetryAsWritten | src/genetic_algorithm.rs:222-234 | As written: a completed retry loop consumes no more draws than it was given |
| Generator.RetryIndexesAboveTheMap | src/genetic_algorithm.rs:222-234 | From (0, 5) with the draws Bottom, Top the code as written indexes row -1; the corrected loop yields a null gene |
| Generator.BottomRowIndexesBelowTheMap | src/genetic_algorithm.rs:219 | From the last row, Bottom passes the helpers' bounds test and indexes row WORLD_SIZE; the corrected test yields a null gene |
| Generator.Retry | src/genetic_algorithm.rs:222-234 | The corrected retry loop never indexes outside the world; it ends on a good target or with the null move in place |
| Generator.GenerateStep | src/genetic_algorithm.rs:204-241 | One corrected round spends at least one draw and yields an unflagged gene whose guarded target is good, or the null move in place |
| Generator.Generate | src/genetic_algorithm.rs:199-244 | The corrected generator never panics, pushes exactly n genes and keeps the cursor in the world |
| Generator.GenerateWalks | src/genetic_algorithm.rs:199-244 | The generated genes form a walk over good tiles from the start, and the final cursor is where that walk ends |
| Generator.GenerateClears | src/genetic_algorithm.rs:199-244 | The generated genes carry no flag |
| Generator.GenerateRandomSequence | src/genetic_algorithm.rs:199-244 | The vector gains exactly the generated genes; nothing else changes |
| Generator.GenerateGene | src/genetic_algorithm.rs:205-234 | One round of the loop computes exactly the specification's round |
| Generator.RetryGene | src/genetic_algorithm.rs:222-234 | The retry loop computes exactly the corrected specification |
| Generator.NewSearch | src/genetic_algorithm.rs:174-186 | A fresh, not yet evaluated candidate at (x, y) with n generated genes |
| Legacy.DirectionValue | src/main.rs:1005-1013 | Top steps to (-1, 0), Bottom to (1, 0), Left to (0, -1), Right to (0, 1), whatever the flag; so every move is a unit step along one axis, and the step is (0, 0) exactly for the null move |
| Legacy.IsReverse | src/main.rs:546-557 | `a` reverses `other` exactly when `a` is a move whose step cancels the step of `other` |
| Legacy.Upgrade | src/main.rs:536-543 | The older move maps to a newer one with the same step and destroy flag and no deposit flag |
| Legacy.UpgradeAgrees | src/main.rs:546-567 | The two move types agree on reversal and on the movement primitive |
| Legacy.Property | src/main.rs:559-567 | A move is handed to the primitive whose offset is its own step; the null move is handed over as Down |
| Legacy.RandomInputDir | src/main.rs:569-580 | A drawn action is never flagged, and it is null exactly for the draw 2 |
| Legacy.RandomInputDirOnto | src/main.rs:569-580 | Each kind of action is drawn by exactly one draw |
| Legacy.GenerateRandomSequence | src/main.rs:634-642 | One drawn action is pushed per draw; nothing else changes |
| Legacy.NewSearch | src/main.rs:609-621 | A fresh, not yet evaluated candidate at (x, y) whose vector holds one drawn action per draw |
| Legacy.Step | src/main.rs:657-688 | After a round the cursor stands on an observed cell of the world |
| Legacy.Run | src/main.rs:657-688 | After the evaluation loop the cursor stands on an observed cell of the world |
| Legacy.OffMapBecomesNull | src/main.rs:664-670 | A move out of the world becomes the null move, counts a null block and spends no draw |
| Legacy.BadTargetIsRedrawn | src/main.rs:672-676 | A move onto a bad or unobserved tile is replaced by the next draw and counts a null block; the robot stays and pays nothing |
| Legacy.GoodMoveIsPaid | src/main.rs:679-687 | A move onto a good tile is kept and the robot enters the tile at the step cost |
| Legacy.NullMoveIsFree | src/main.rs:679-687 | The null move on a good tile changes nothing |
| Legacy.StepFacts | src/main.rs:657-688 | A round counts at most one null block and spends a draw only with one; without a null block the gene is kept and followed; with one the robot stays and pays nothing |
| Legacy.RunShape | src/main.rs:657-688 | The evaluation keeps the number of genes, counts at most one null block per gene, spends no more draws than null blocks and never lowers the cost |
| Legacy.ClearRunFollows | src/main.rs:657-688 | A candidate whose every move enters a good tile comes back unchanged, with no null block and no draw spent, and the robot ends where the moves lead |
| Legacy.EvaluationFacts | src/main.rs:644-720 | A whole evaluation keeps the vector's length, counts at most one null block per gene, spends no more redraws than null blocks, and at most half the genes are backtracks; a clear candidate is kept unchanged |
| Legacy.EvaluateGene | src/main.rs:658-687 | One round of the loop computes exactly the specification's round |
| Legacy.GeneticCost | src/main.rs:644-720 | The candidate's genes become the evaluated genes; its cost, distance and weight are those of the evaluation; the start is unchanged |
| Planner.MyRobot.New | src/main.rs:200-214 | The visited grid is 300 x 300 with no cell visited |
| Planner.MyRobot.MarkVisited | src/main.rs:228-231 | The robot's cell becomes visited and no other cell changes |
| Planner.MyRobot.GetFromTo | src/main.rs:235-250 | Two half-open ranges, each within `0..len`, holding exactly the indices within `distance + 1` below and `distance` above the robot's row or column |
| Planner.NewWithWorld | src/main.rs:475-505 | The directions, in the fixed order, whose target is in the world and unobserved; all eight when there is none |
| Planner.UnseenTarget | src/main.rs:487-497 | A direction is kept exactly when its target is in the world and unobserved |
| Planner.SeenTarget | src/main.rs:518-528 | A direction is kept exactly when its target is in the world, a good tile, and not yet visited |
| Planner.NewAlreadySeen | src/main.rs:507-532 | The directions, in the fixed order, whose target is in the world, a good tile and not visited; possibly none |
| Planner.Spotlight | src/main.rs:418-420 | A quote below 200 becomes exactly 200; any other quote is kept |
| Planner.FrontierCost | src/main.rs:398-410 | The scan costs three times ONE_DIRECTION_DISTANCE per cardinal direction; the flag is set exactly when some direction is diagonal |
| Planner.EnoughEnergyToOperate | src/main.rs:370-428 | The robot may go exactly when it has a robot map and its energy covers the moves plus the sensing of the frontier where the moves lead |
| Planner.ProjectedEnergyBounds | src/main.rs:395-423 | The sensing after a walk costs at least one cardinal scan and at most four scans plus one illumination |
| Planner.ProjectedCostExceedsMoves | src/main.rs:370-428 | The energy asked for lies between the moves' cost plus one scan and the moves' cost plus four scans and one illumination |
| Planner.PickWinner | src/main.rs:835-842 | The winner pick returns a position of the population, the one the scan specification picks |
| Planner.WinnerUndominated | src/main.rs:835-842 | No candidate is at least as close and strictly lighter than the winner; the winner is at least as close and as light as the first candidate; its index is never INFINITE |
| Planner.ThreadResult | src/main.rs:834-852 | A search thread whose population is smaller than INFINITE always hands back a copy of its winner |
| Planner.ThreadDestination | src/main.rs:777-794 | A thread's destination lies ONE_DIRECTION_DISTANCE steps from the robot, diagonals included, and may lie up to that far outside the world on either side |
| Planner.DestinationAboveTheWorld | src/main.rs:475-505 | When no direction aims at an unobserved cell, the fallback hands out Top, whose destination from row 3 is row -5, outside the world |
| Planner.Aggregate | src/main.rs:863-876 | The combination loop computes the combination specification from the placeholder |
| Planner.AggregateFacts | src/main.rs:863-881 | The combined best is the placeholder or some thread's result, no result beats it, and a round is accepted only if some thread came within one step of its target |

## Left out

- Threads, locks, the game tick and sleeping are left out. So are `Robot`/`Runnable` plumbing, `process_tick`, `save_contents`, `go`, the simulation's energy, and the outer retry loop as a loop. `Planner.AggregateFacts` states the retry rule, but whether that loop ever stops depends on the random draws.
- The 120-generation loop of a search thread (`src/main.rs:797-827`) is not modelled as one member. Its evaluation, selection, crossover and mutation are modelled one by one. The step that pushes the two parents back onto the population (`src/main.rs:825-826`) is not modelled.
- `src/export_of_image.rs` is not part of this model.
- The random generator is not modelled. Every draw comes from a stream the caller supplies.
- Genetic.GeneticCost: the repair loop draws until it succeeds in the source. Here it ends when its stream runs out; the method then reports failure and its postcondition says nothing about the partial state.
- Legacy.GeneticCost: the redraw of a refused move ends the same way when its stream runs out, with nothing stated about the partial state.
- Generator.GenerateRandomSequence: the retry loop ends the same way when its stream runs out, with nothing stated about the partial state.
- Population.GeneticMutation: the redraw loop ends the same way when its stream runs out, with nothing stated about the partial state.
- Genetic.GeneticCost: the weight is a caller-supplied function `weigh` of the counters. The `f32` formula and its truncation to `i32` are floating point, and they are not modelled.
- Legacy.GeneticCost: the weight is likewise the caller-supplied `weigh` of the counters, not the `f32` formula.
- World.StepCost: the terrain cost after the weather adjustment and the content cost come from the simulation library. They are parameters (`CostModel`).
- Planner.EnoughEnergyToOperate: the spotlight quote and the energy test come from the simulation library and are parameters. A failing spotlight quote (`unwrap` of an error) is not modelled.
- Planner.EnoughEnergyToOperate: coordinates are unbounded integers. The `usize` wrap of a replayed path that would leave the top or left edge is not modelled.
- Integer widths are not modelled elsewhere either (`usize` cost, `i32` coordinates). A thread's destination above or left of the map wraps around as `usize` (`src/main.rs:793-794`) and is turned back into the signed value by `as i32` in both evaluators. The model carries the signed value (`Planner.ThreadDestination`, the `dest` of both `GeneticCost` methods).
- The selection, crossover and mutation of `src/main.rs` (lines 908-975) are the same code as those of `src/genetic_algorithm.rs`. They are modelled once, generically, in `Population`.
- The crate root's copies of `get_next_position` and `is_good_tile` (`src/main.rs:1015-1039`) equal the helpers' versions and are modelled once, in `Frontier` and `World`. The crate root's `is_not_visualize` is `World.IsNotVisualize`.
- `MovesToFollow::new`, `MyRobot::already_visited` and the helpers' `already_visited` only build an empty record or read one flag. They are inlined into `Planner.MovesToFollow` and `Planner.SeenTarget`.
- The helpers' `calculate_cost_dir` reads the content to deposit from a global. Its cost times quantity is the parameter `deposit`.
- The program never calls `calculate_cost_dir` or `convert_to_input_dir`, and `src/main.rs` declares no `helpers_functions` module. They are modelled as written, over the two-flag move type the helpers match on.

## Findings

| source | as written | input that shows it | evidently intended | confidence | as-written member | corrected member |
|---|---|---|---|---|---|---|
| src/helpers_functions.rs:49-55 | The bounds test uses `>`, so the coordinate WORLD_SIZE (300) passes; the newer evaluator and generator import this test and then index row or column 300 of a 300-row map | From the last row (299, 5), the move Bottom aims at (300, 5); the test passes and the map is indexed out of bounds | `>=`, as in the crate root's copy (`src/main.rs:1041-1046`) | not executed | Generator.BottomRowIndexesBelowTheMap | World.IsNotVisualize |
| src/genetic_algorithm.rs:222-234 | The retry loop of `generate_random_sequence` tests the cursor `(x, y)` for leaving the world instead of the new candidate, so an off-map candidate is indexed by the next loop test | From (0, 5), with Lava below and the draws Bottom then Top, the candidate becomes (-1, 5) and is indexed | Test the candidate and end the loop with the null move when it leaves the world | not executed | Generator.RetryIndexesAboveTheMap | Generator.Generate |
