# GAL4J in Dafny

A verified model of the core of GAL4J, a Java library for genetic
algorithms. A run evolves a population of chromosomes (fixed-length
arrays of binary, decimal or letter genes) for a configured number of
generations. Each generation scores every member with a user fitness
function, sorts the population by fitness, checks the end conditions,
and builds the next generation: selection picks parents, crossover
breeds children from pairs of parents, and mutation alters members.
A configuration object carries the rates and sizes, and a checker
repairs or rejects it before a run. The knapsack fitness function of the
bundled example is modelled as a concrete fitness function.

Random draws are parameters of the methods that use them, each with the
range the Java call produces. Java `double`s are Dafny `real`s. A gene is
a boxed `Integer`, a boxed `Character` (its UTF-16 code unit) or `null`.
Exceptions the library can throw on some inputs become an `Outcome` or
`Option` result rather than a precondition, except where "Left out"
below names a precondition. A mutation call that the Java code never
returns from ends the same way, with the marker `NoReturn`.

Modules, one per part of the library:

| file | module | Java |
|---|---|---|
| common.dfy | Common | genes, exceptions, Java `int` division, Fisher-Yates shuffle, redraw loops |
| chromosome.dfy | Chromosomes | `AChromosome` and its binary, decimal and character subclasses |
| population.dfy | Populations | `Population` |
| config.dfy | Configs | `Config`, `DefaultConfig` |
| selection.dfy | Selection | `ASelection` and the six selection strategies |
| crossover.dfy | Crossovers | single-point, two-point, probability, noise-reduction and eccentric crossover |
| order_crossover.dfy | OrderCrossover | `OrderCrossOver` |
| cyclic_crossover.dfy | CyclicCrossover | `CyclicCrossOver` |
| mutation.dfy | Mutations | the six mutation operators |
| operators.dfy | Operators | dispatch over the operator variants the engine holds |
| checker.dfy | Checker | `Checker` |
| engine.dfy | Engines | `Engine` |
| bagfunc.dfy | Knapsack | the example fitness function `BagFunc` |

## Model

| member | source | states |
|---|---|---|
| Common.Shuffle | src/gal4j/chromosome/DecimalChromosome.java:66-74 | the Fisher-Yates shuffle keeps the length; its partner ShufflePermutes proves it only reorders |
| Common.ShufflePermutes | src/gal4j/chromosome/DecimalChromosome.java:66-74 | a shuffle is a permutation of its input (same multiset) |
| Common.FirstDifferent | src/gal4j/chromosome/DecimalChromosome.java:145-148 | the rejection loop stops at a draw that differs from the current value, and every draw before it equals that value |
| Common.Redrawn | src/gal4j/operators/crossover/TwoPointCrossOver.java:51-56 | the second index lies in [0, length) and differs from the first |
| Common.RedrawNeedsTwoPositions | src/gal4j/operators/mutation/TwoPointMutation.java:47-52 | the redraw loop can only stop when the chromosome has at least two genes |
| Common.SwapPermutes | src/gal4j/operators/mutation/SwapMutation.java:56-60 | exchanging two genes is a permutation |
| Chromosomes.Initialized | src/gal4j/chromosome/AChromosome.java:27 | initialisation yields exactly one gene per position |
| Chromosomes.InitializedDomain | src/gal4j/chromosome/DecimalChromosome.java:57-75 | initialised genes are set and of the representation's type: bits, numbers below n, a permutation of 0..n-1 in permutation mode, lower-case letters |
| Chromosomes.ShuffleFromIsShuffle | src/gal4j/chromosome/DecimalChromosome.java:68-73 | the in-place downward swap loop computes the recursive Fisher-Yates shuffle |
| Chromosomes.PermutationOfIdentity | src/gal4j/chromosome/DecimalChromosome.java:57-75 | a permutation of 0..n-1 holds only set numbers below n |
| Chromosomes.MutatedDomain | src/gal4j/chromosome/AChromosome.java:77 | binary and decimal mutation always change the gene and keep it in its domain; letter mutation keeps a letter and may redraw the same one |
| Chromosomes.BitFlipTwiceRestores | src/gal4j/chromosome/BinaryChromosome.java:127-131 | flipping a bit twice restores it |
| Chromosomes.DecimalMutationNeedsTwoValues | src/gal4j/chromosome/DecimalChromosome.java:144-150 | the decimal redraw loop can only stop on a chromosome of two or more genes |
| Chromosomes.MutationBreaksPermutation | src/gal4j/chromosome/DecimalChromosome.java:144-150 | mutating one gene of a permutation-mode chromosome leaves a duplicate, so it is no longer a permutation |
| Chromosomes.Chromosome.constructor | src/gal4j/chromosome/BinaryChromosome.java:29-32 | a new chromosome has `genLength` unset genes, fitness 0 and no parent flag |
| Chromosomes.Chromosome.SetFitness | src/gal4j/chromosome/AChromosome.java:100-102 | sets the fitness, keeps the parent flag |
| Chromosomes.Chromosome.SetParent | src/gal4j/chromosome/AChromosome.java:119-121 | sets the parent flag, keeps the fitness |
| Chromosomes.Chromosome.SetGen | src/gal4j/chromosome/BinaryChromosome.java:94-96 | a gene of the other boxed type throws a class cast, checked before the index; otherwise a position outside the array throws an index error; a throw changes nothing; otherwise exactly the one position changes and the chromosome stays well typed |
| Chromosomes.Chromosome.Initialize | src/gal4j/chromosome/AChromosome.java:27 | the genes become `Initialized` of the draws, all set |
| Chromosomes.Chromosome.InitializeBinary | src/gal4j/chromosome/BinaryChromosome.java:50-54 | every gene becomes its draw in {0, 1} |
| Chromosomes.Chromosome.InitializeDecimal | src/gal4j/chromosome/DecimalChromosome.java:57-75 | repeat mode draws numbers below n; permutation mode yields a permutation of 0..n-1 |
| Chromosomes.Chromosome.ShuffleInPlace | src/gal4j/chromosome/DecimalChromosome.java:68-73 | the array ends as the Fisher-Yates shuffle of its old contents |
| Chromosomes.Chromosome.InitializeLetters | src/gal4j/chromosome/CharChromosome.java:48-52 | every gene becomes the letter 'a' + draw |
| Chromosomes.Chromosome.Clone | src/gal4j/chromosome/BinaryChromosome.java:104-109 | a fresh chromosome with a fresh copy of the genes, fitness 0, not a parent |
| Chromosomes.Chromosome.Clean | src/gal4j/chromosome/BinaryChromosome.java:115-119 | fitness 0, no parent flag, every gene unset |
| Chromosomes.Chromosome.MutateGen | src/gal4j/chromosome/AChromosome.java:77 | only the mutated position changes, to the value the representation draws |
| Chromosomes.Chromosome.MutateBit | src/gal4j/chromosome/BinaryChromosome.java:127-131 | 0 becomes 1 and anything else becomes 0, at that position only |
| Chromosomes.Chromosome.MutateNumber | src/gal4j/chromosome/DecimalChromosome.java:144-150 | the gene becomes the first draw that differs from it |
| Chromosomes.Chromosome.MutateLetter | src/gal4j/chromosome/CharChromosome.java:120-122 | the gene becomes the drawn letter |
| Populations.KeyedByFitness | src/gal4j/algorithm/Population.java:116 | pairs every member with the fitness the comparator reads |
| Populations.Members | src/gal4j/algorithm/Population.java:116 | drops the keys, keeping the order |
| Populations.InsertByKey | src/gal4j/algorithm/Population.java:116 | inserting adds exactly one entry; partners InsertKeepsDescending, InsertPermutes and InsertWithKey |
| Populations.SortByKey | src/gal4j/algorithm/Population.java:116 | the sort keeps the length; partners SortKeysDescending, SortKeysPermutes and SortIsStable |
| Populations.SortByFitness | src/gal4j/algorithm/Population.java:116 | `Collections.sort` with the reversed fitness comparator keeps the length; partners SortIsDescending and SortPermutes |
| Populations.InsertKeepsDescending | src/gal4j/algorithm/Population.java:116 | inserting into a descending sequence keeps it descending, and the new first entry is the inserted one or the old first |
| Populations.InsertPermutes | src/gal4j/algorithm/Population.java:116 | inserting adds exactly the inserted entry to the multiset |
| Populations.InsertWithKey | src/gal4j/algorithm/Population.java:116 | inserting keeps the relative order of the entries of every key |
| Populations.WithKeyCons | src/gal4j/algorithm/Population.java:116 | the entries of one key in a sequence with a new head |
| Populations.SortKeysDescending | src/gal4j/algorithm/Population.java:116 | the sorted keys are non-increasing |
| Populations.SortKeysPermutes | src/gal4j/algorithm/Population.java:116 | the sort only reorders the keyed entries |
| Populations.SortIsStable | src/gal4j/algorithm/Population.java:116 | entries of equal fitness keep their relative order, as `Collections.sort` guarantees |
| Populations.SortIsDescending | src/gal4j/algorithm/Population.java:115-118 | a sorted population is best first |
| Populations.InsertMembersPermute | src/gal4j/algorithm/Population.java:116 | inserting adds exactly the inserted chromosome to the members |
| Populations.SortPermutes | src/gal4j/algorithm/Population.java:115-118 | sorting a population only reorders its members |
| Populations.SortMembersPermute | src/gal4j/algorithm/Population.java:116 | the sorted members are a permutation of the members |
| Populations.FitnessValuesBound | src/gal4j/algorithm/Population.java:214-222 | there are no more distinct fitness values than members |
| Populations.Population.constructor | src/gal4j/algorithm/Population.java:37-40 | an empty, unsorted population of generation 0 |
| Populations.Population.OfGeneration | src/gal4j/algorithm/Population.java:47-50 | an empty, unsorted population of the given generation |
| Populations.Population.AddChromosome | src/gal4j/algorithm/Population.java:65-67 | appends the chromosome and leaves the sorted flag alone |
| Populations.Population.SortPopulation | src/gal4j/algorithm/Population.java:115-118 | the members become their stable sort by fitness, best first, and the population is marked sorted |
| Populations.Population.GetBestChromosome | src/gal4j/algorithm/Population.java:91-96 | sorts unless already marked sorted; an empty population then throws an index error, otherwise the first member is returned and, after a sort, nobody is fitter |
| Populations.Population.GetWorstChromosome | src/gal4j/algorithm/Population.java:103-108 | sorts unless already marked sorted; an empty population then throws an index error, otherwise the last member is returned and, after a sort, nobody is less fit |
| Populations.Population.CalculateFitSeq | src/gal4j/algorithm/Population.java:139-144 | every member's fitness becomes the fitness function of its genes; parent flags are kept |
| Populations.Population.SetParents | src/gal4j/algorithm/Population.java:181-185 | every member's parent flag is cleared; fitness values are kept |
| Populations.Population.IsSameInstance | src/gal4j/algorithm/Population.java:191-207 | true if and only if one chromosome object occurs at two positions |
| Populations.Population.CountUniqueFitnessValues | src/gal4j/algorithm/Population.java:214-222 | the number of distinct fitness values, never more than the number of members |
| Configs.Config.constructor | src/gal4j/algorithm/Config.java:16-43 | the fields hold their initialisers: zeros, `approximateFinalFit` -1 |
| Configs.Config.Default | src/gal4j/algorithm/DefaultConfig.java:13-22 | population 10000, 100 generations, 16 genes, mutation rate 0.01, selection rate 0.2, multithreaded with 4 threads, the rest as initialised |
| Configs.Config.SetPopulationSize | src/gal4j/algorithm/Config.java:51-53 | only `populationSize` changes |
| Configs.Config.SetGenerations | src/gal4j/algorithm/Config.java:62-64 | only `generations` changes |
| Configs.Config.SetMutationRate | src/gal4j/algorithm/Config.java:71-73 | only `mutationRate` changes |
| Configs.Config.SetGenLength | src/gal4j/algorithm/Config.java:81-83 | only `genLength` changes |
| Configs.Config.SetSelectionRate | src/gal4j/algorithm/Config.java:91-93 | only `selectionRate` changes |
| Configs.Config.SetMultithread | src/gal4j/algorithm/Config.java:101-103 | only `multithread` changes |
| Configs.Config.SetThreads | src/gal4j/algorithm/Config.java:111-113 | only `threads` changes |
| Configs.Config.SetApproximateFinalFit | src/gal4j/algorithm/Config.java:121-123 | only `approximateFinalFit` changes |
| Configs.Config.SetDelta | src/gal4j/algorithm/Config.java:131-133 | only `delta` changes |
| Configs.Config.SetSecondOperatorRate | src/gal4j/algorithm/Config.java:141-143 | only `secondOperatorRate` changes |
| Selection.ReturnGuard.constructor | src/gal4j/operators/selection/ASelection.java:23 | a guard starts with nothing handed out |
| Selection.ReturnGuard.Reset | src/gal4j/operators/selection/ASelection.java:38-40 | forgets every object handed out |
| Selection.ReturnGuard.CheckReturn | src/gal4j/operators/selection/ASelection.java:50-59 | hands out the object itself the first time and a fresh copy with the same genes every later time, and records it; no object is handed out twice |
| Selection.ReturnGuard.CheckReturnNull | src/gal4j/operators/selection/ASelection.java:50-58 | `checkReturn(null)`: null is recorded and handed out the first time; every later time the `clone` on null throws a `NullPointerException` and nothing changes |
| Selection.PassingKeepsWellFormed | src/gal4j/operators/selection/ASelection.java:50-59 | passing an object through the guard keeps the record free of objects handed out twice |
| Selection.Fitnesses | src/gal4j/operators/selection/RouletteWheelSelection.java:50-53 | the fitness values the selection loops read, in member order |
| Selection.FirstFittest | src/gal4j/operators/selection/TournamentSelection.java:57-63 | the tournament keeps the earliest contestant of greatest fitness: nobody is fitter, nobody before it is as fit |
| Selection.RunningTotalOfPrefix | src/gal4j/operators/selection/RouletteWheelSelection.java:59-70 | the running sum up to a position does not depend on later members |
| Selection.RouletteIndex | src/gal4j/operators/selection/RouletteWheelSelection.java:59-74 | the first position whose running sum reaches the target; every earlier running sum is below it |
| Selection.RouletteIndexIs | src/gal4j/operators/selection/RouletteWheelSelection.java:59-74 | a walk that stops at the first position reaching the target has found `RouletteIndex` |
| Selection.SumNonNegative | src/gal4j/operators/selection/RouletteWheelSelection.java:49-53 | with no negative fitness the total is not negative |
| Selection.ScaledBelow | src/gal4j/operators/selection/RouletteWheelSelection.java:56 | a spin in [0, 1) lands in [0, total], and below the total when it is positive |
| Selection.RouletteAlwaysStops | src/gal4j/operators/selection/RouletteWheelSelection.java:74 | with a non-negative total the wheel stops on a member: the null return is unreachable |
| Selection.RouletteNonNegative | src/gal4j/operators/selection/RouletteWheelSelection.java:74 | with no negative fitness the wheel never comes up empty |
| Selection.RouletteZeroTotal | src/gal4j/operators/selection/RouletteWheelSelection.java:56-69 | with no negative fitness and a zero total the first member is taken |
| Selection.Closest | src/gal4j/operators/selection/FitnessUniformSelection.java:63-72 | the first member whose fitness is nearest the target: no member is nearer, none before it is as near |
| Selection.UniformPick | src/gal4j/operators/selection/FitnessUniformSelection.java:54-72 | the pick is a member position |
| Selection.UniformTargetInRange | src/gal4j/operators/selection/FitnessUniformSelection.java:60 | the target lies between the worst and the best fitness |
| Selection.SortedFirstIsFittest | src/gal4j/operators/selection/RandomRepleacmentTournament.java:74-86 | the first of the sorted tournament is a contestant at least as fit as every contestant |
| Selection.SpinWheel | src/gal4j/operators/selection/RouletteWheelSelection.java:49-74 | the two loops find `Spin` of the fitness values |
| Selection.NearestMember | src/gal4j/operators/selection/FitnessUniformSelection.java:63-72 | the scan finds `Closest` of the fitness values |
| Selection.SpinAndReturn | src/gal4j/operators/selection/RouletteWheelSelection.java:59-74 | null when the walk runs past the end; otherwise the spun member passes through the guard |
| Selection.TournamentSelection.constructor | src/gal4j/operators/selection/TournamentSelection.java:28-32 | keeps the tournament size, with a fresh empty guard |
| Selection.TournamentSelection.Select | src/gal4j/operators/selection/TournamentSelection.java:55-67 | a size of 0 or less draws nobody and passes null through the guard; an empty population throws IllegalArgumentException "bound must be positive", as `nextInt(0)` does; otherwise the first of the fittest drawn contestants passes through the guard |
| Selection.Contest | src/gal4j/operators/selection/TournamentSelection.java:57-63 | the contest loop ends holding `Winner` of the draws: the earliest drawn contestant of greatest fitness |
| Selection.EliteSelection.constructor | src/gal4j/operators/selection/EliteSelection.java:30-33 | the elite count is the population size times the selection rate truncated to int; the index starts at 0 |
| Selection.EliteSelection.Select | src/gal4j/operators/selection/EliteSelection.java:44-59 | sorts if needed; an index past the population throws; at the index equal to the elite count gives null; otherwise the member at the index, the index advancing modulo the elite count |
| Selection.RouletteWheelSelection.constructor | src/gal4j/operators/selection/RouletteWheelSelection.java:23-26 | a fresh empty guard |
| Selection.RouletteWheelSelection.Select | src/gal4j/operators/selection/RouletteWheelSelection.java:45-75 | the member the spin selects passes through the guard, or null when the walk runs past the end |
| Selection.FitnessUniformSelection.constructor | src/gal4j/operators/selection/FitnessUniformSelection.java:25-27 | a fresh empty guard |
| Selection.FitnessUniformSelection.Select | src/gal4j/operators/selection/FitnessUniformSelection.java:46-75 | sorts if needed; an empty population throws; otherwise the member nearest the drawn target passes through the guard |
| Selection.FitnessUniformSelection.PickUniform | src/gal4j/operators/selection/FitnessUniformSelection.java:54-74 | the member nearest the target between the last and the first fitness passes through the guard |
| Selection.RouletteElitismSelection.constructor | src/gal4j/operators/selection/RouleteElitismSelection.java:35-40 | elite count and rate from the configuration, index and generation 0 |
| Selection.RouletteElitismSelection.Select | src/gal4j/operators/selection/RouleteElitismSelection.java:65-101 | a new generation restarts the elites; sorts if needed; the elite branch throws past the population or with no elites and otherwise advances the index modulo the elite count; the roulette branch spins |
| Selection.RouletteElitismSelection.Choose | src/gal4j/operators/selection/RouleteElitismSelection.java:66-101 | one pick from the sorted members: elite or roulette, as in `Select` |
| Selection.RouletteElitismSelection.FollowGeneration | src/gal4j/operators/selection/RouleteElitismSelection.java:66-71 | a population of another generation restarts the elites at index 0 |
| Selection.RouletteElitismSelection.NextElite | src/gal4j/operators/selection/RouleteElitismSelection.java:79-84 | the member at the elite index passes through the guard, then the index advances modulo the elite count; with no elites the modulo throws after the increment |
| Selection.RandomReplacementTournament.constructor | src/gal4j/operators/selection/RandomRepleacmentTournament.java:33-37 | keeps the size and the replacement probability, with a fresh empty guard |
| Selection.RandomReplacementTournament.Select | src/gal4j/operators/selection/RandomRepleacmentTournament.java:62-88 | the drawn tournament sorted best first; with the replacement probability the drawn lower rank, otherwise the best, passes through the guard; an empty tournament throws |
| Crossovers.FromParentsFit | src/gal4j/operators/crossover/SinglePointCrossOver.java:51-57 | genes taken from parents of one representation fit that representation |
| Crossovers.SinglePointGenes | src/gal4j/operators/crossover/SinglePointCrossOver.java:51-57 | the offspring genes have the parents' length |
| Crossovers.SinglePointProperties | src/gal4j/operators/crossover/SinglePointCrossOver.java:48-57 | every gene comes from a parent at its own position; the last gene always comes from the second parent; a cut at 0 copies the second parent; equal parents give their own genes |
| Crossovers.SinglePoint | src/gal4j/operators/crossover/SinglePointCrossOver.java:43-60 | parents without genes give the `IllegalArgumentException` "bound must be positive" of `nextInt(0)`; otherwise a fresh clone of the first parent whose genes are `SinglePointGenes` of the parents and the cut |
| Crossovers.TwoPointGenes | src/gal4j/operators/crossover/TwoPointCrossOver.java:60-74 | the offspring genes have the parents' length |
| Crossovers.TwoPointProperties | src/gal4j/operators/crossover/TwoPointCrossOver.java:60-74 | every gene comes from a parent; the lower point takes the second parent's gene; the order of the two points does not matter |
| Crossovers.TwoPoint | src/gal4j/operators/crossover/TwoPointCrossOver.java:46-78 | parents without genes give the `IllegalArgumentException` "bound must be positive" of `nextInt(0)`; otherwise a fresh clone of the first parent whose genes are `TwoPointGenes` at the first point and the redrawn second point |
| Crossovers.ProbabilityGenes | src/gal4j/operators/crossover/ProbabilityCrossOver.java:59-65 | the offspring genes have the parents' length |
| Crossovers.ProbabilityProperties | src/gal4j/operators/crossover/ProbabilityCrossOver.java:59-65 | every gene comes from a parent; a probability of 1 or more copies the first parent, one of 0 or less the second |
| Crossovers.ProbabilityCrossover.constructor | src/gal4j/operators/crossover/ProbabilityCrossOver.java:28-31 | keeps the probability |
| Crossovers.ProbabilityCrossover.Crossover | src/gal4j/operators/crossover/ProbabilityCrossOver.java:54-68 | a fresh clone of the first parent whose genes are `ProbabilityGenes` of the per-gene draws |
| Crossovers.WrapInt | src/gal4j/operators/crossover/NoiseReductionCrossOver.java:46 | 32-bit wrap-around: the result is a Java int, and a Java int is kept |
| Crossovers.CharCast | src/gal4j/operators/crossover/NoiseReductionCrossOver.java:50 | the `(char)` cast yields a 16-bit code unit and keeps one |
| Crossovers.Pointwise | src/gal4j/operators/crossover/NoiseReductionCrossOver.java:26-31 | on success each gene is the operation on the parents' genes at that position; it fails if and only if some position fails |
| Crossovers.PointwiseStep | src/gal4j/operators/crossover/NoiseReductionCrossOver.java:26-31 | one more accepted position appends its gene |
| Crossovers.PointwiseFirstFailure | src/gal4j/operators/crossover/EccentricCrossOver.java:29-40 | the first rejected position decides the exception |
| Crossovers.WrappedIntMeanOverflows | src/gal4j/operators/crossover/NoiseReductionCrossOver.java:46 | as written, two genes of 2^30 average to -2^30 |
| Crossovers.IntMeanBetween | src/gal4j/operators/crossover/NoiseReductionCrossOver.java:46 | the corrected mean `IntMean`, halving the exact sum toward zero, lies between the two genes |
| Crossovers.WrappedIntMeanOfSelfAndBits | src/gal4j/operators/crossover/NoiseReductionCrossOver.java:46 | as written (`WrappedIntMean`), a 32-bit gene averaged with itself is unchanged exactly when doubling it does not overflow; the mean of two bits is their AND |
| Crossovers.WrappedIntMeanAgrees | src/gal4j/operators/crossover/NoiseReductionCrossOver.java:46 | without overflow the written mean is the exact one |
| Crossovers.AverageGenesProperties | src/gal4j/operators/crossover/NoiseReductionCrossOver.java:44-55 | `AverageGenes` (Integer pairs by the wrapped 32-bit mean, Character pairs by the halved sum cast to char): set genes of one representation are accepted and their mean fits that representation; a Character gene averaged with itself is unchanged, and an Integer gene is unchanged exactly when doubling it does not overflow |
| Crossovers.NoiseReductionOfSelf | src/gal4j/operators/crossover/NoiseReductionCrossOver.java:23-34 | crossing a chromosome whose genes are set with itself reproduces its genes exactly when no Integer gene overflows on doubling |
| Crossovers.NoiseReduction | src/gal4j/operators/crossover/NoiseReductionCrossOver.java:23-34 | a fresh clone of the first parent holding the gene-wise 32-bit means of `AverageGenes`, or the exception of the first position that fails |
| Crossovers.WrappedExtremeIntOverflows | src/gal4j/operators/crossover/EccentricCrossOver.java:71-81 | as written, genes -2^31 and -1 give -2^31, the smaller gene |
| Crossovers.FartherFrom | src/gal4j/operators/crossover/EccentricCrossOver.java:74-80 | the rule picks one of the two genes, one at least as far from the mean as the other, and the larger one on a tie |
| Crossovers.ExtremeIntIsMax | src/gal4j/operators/crossover/EccentricCrossOver.java:71-81 | around the exact floored mean (`ExtremeInt`, the corrected rule) the eccentric Integer gene is the larger gene |
| Crossovers.WrappedExtremeIntAgrees | src/gal4j/operators/crossover/EccentricCrossOver.java:71-81 | without overflow the written rule is the exact one |
| Crossovers.ExtremeCharIsMax | src/gal4j/operators/crossover/EccentricCrossOver.java:106-115 | the eccentric Character gene is the larger code unit |
| Crossovers.EccentricGeneFromParents | src/gal4j/operators/crossover/EccentricCrossOver.java:34-62 | `EccentricGene` (Integer pairs by the wrapped 32-bit rule, Character pairs by `ExtremeChar`): the eccentric gene is one of the two parents' genes, so it fits their representation |
| Crossovers.EccentricOnBits | src/gal4j/operators/crossover/EccentricCrossOver.java:71-81 | on bits the eccentric gene is the OR |
| Crossovers.EccentricOffspring | src/gal4j/operators/crossover/EccentricCrossOver.java:29-40 | the offspring takes, at every position, one of the parents' genes: the larger Character gene, and the larger Integer gene wherever the pair's 32-bit sum does not overflow |
| Crossovers.Eccentric | src/gal4j/operators/crossover/EccentricCrossOver.java:24-43 | a fresh clone of the first parent holding the eccentric genes of `EccentricGene`, or the exception of the first position that fails |
| OrderCrossover.Segment | src/gal4j/operators/crossover/OrderCrossOver.java:70-78 | the list after the segment copy has the parent's length |
| OrderCrossover.Skip | src/gal4j/operators/crossover/OrderCrossOver.java:85-87 | the cursor stops at the first gene of the second parent the list does not contain, every gene it passes being contained, or at the end |
| OrderCrossover.FillKeeps | src/gal4j/operators/crossover/OrderCrossOver.java:82-93 | filling keeps the segment, sets every slot, and takes every added gene from the second parent; it fails only when the cursor leaves the second parent |
| OrderCrossover.OrderKeepsSegment | src/gal4j/operators/crossover/OrderCrossOver.java:57-93 | the offspring holds the first parent's genes on the segment between the sorted points and set genes of the second parent elsewhere |
| OrderCrossover.FillKeepsOrder | src/gal4j/operators/crossover/OrderCrossOver.java:81-93 | the genes the fill writes into the empty positions, read left to right, form a subsequence of the second parent from the cursor on |
| OrderCrossover.OrderKeepsOrder | src/gal4j/operators/crossover/OrderCrossOver.java:70-93 | for a set first parent the empty positions are exactly those outside the segment, and the genes filled into them keep the order they have in the second parent |
| OrderCrossover.CursorInBounds | src/gal4j/operators/crossover/OrderCrossOver.java:85-89 | while a slot is unset the cursor finds a missing gene before the end of the second parent |
| OrderCrossover.FillPermutes | src/gal4j/operators/crossover/OrderCrossOver.java:82-93 | from a consistent state filling never fails and yields distinct set genes of the second parent |
| OrderCrossover.OrderPermutes | src/gal4j/operators/crossover/OrderCrossOver.java:47-99 | for parents that are permutations of one set, OX never reads past the second parent and its offspring is a permutation of that set |
| OrderCrossover.OrderCross | src/gal4j/operators/crossover/OrderCrossOver.java:47-99 | parents without genes give the `IllegalArgumentException` "bound must be positive" of `nextInt(0)`; otherwise a fresh clone of the first parent holding `OrderGenes`, or the out-of-bounds exception of the cursor |
| CyclicCrossover.FindFromProperties | src/gal4j/operators/crossover/CyclicCrossOver.java:90-97 | the search finds the first position holding the gene; over set genes it fails exactly when the gene is absent, with the not-found exception |
| CyclicCrossover.IndexOfGene | src/gal4j/operators/crossover/CyclicCrossOver.java:90-97 | the linear search returns `IndexOf` of the parent's genes |
| CyclicCrossover.VisitShrinks | src/gal4j/operators/crossover/CyclicCrossOver.java:60 | visiting an unvisited position shrinks the unvisited set |
| CyclicCrossover.Walk | src/gal4j/operators/crossover/CyclicCrossOver.java:57-66 | a finished walk keeps the arrays' lengths |
| CyclicCrossover.WalkKeeps | src/gal4j/operators/crossover/CyclicCrossOver.java:57-66 | a walk keeps what was visited before, visits its start, and assigns every newly visited position from the current cycle's parent |
| CyclicCrossover.CyclesKeep | src/gal4j/operators/crossover/CyclicCrossOver.java:52-70 | the outer loop keeps visited positions and leaves only parents' genes |
| CyclicCrossover.CyclicFromParents | src/gal4j/operators/crossover/CyclicCrossOver.java:42-79 | every offspring gene is a parent's gene at its position, the first from the first parent |
| CyclicCrossover.LinkFound | src/gal4j/operators/crossover/CyclicCrossOver.java:63-64 | for permutation parents the search from every position succeeds and finds its link |
| CyclicCrossover.LinkedDiffer | src/gal4j/operators/crossover/CyclicCrossOver.java:63-64 | distinct linked positions hold different genes in each parent |
| CyclicCrossover.MarkAgrees | src/gal4j/operators/crossover/CyclicCrossOver.java:59-60 | assigning and visiting a position keeps linked positions in agreement |
| CyclicCrossover.MarkContinues | src/gal4j/operators/crossover/CyclicCrossOver.java:63-66 | a walk that moves on to its link is again a chain of links from its start |
| CyclicCrossover.MarkCloses | src/gal4j/operators/crossover/CyclicCrossOver.java:66 | for permutation parents a walk stops only on coming back to its start, leaving the visited positions closed under links |
| CyclicCrossover.WalkPermutes | src/gal4j/operators/crossover/CyclicCrossOver.java:57-66 | a walk from a consistent state succeeds and leaves the visited positions closed and in agreement |
| CyclicCrossover.CyclesPermute | src/gal4j/operators/crossover/CyclicCrossOver.java:52-70 | the outer loop from a consistent state succeeds with linked positions agreeing |
| CyclicCrossover.AgreeDistinct | src/gal4j/operators/crossover/CyclicCrossOver.java:52-70 | an offspring of parents' genes whose linked positions agree holds no gene twice |
| CyclicCrossover.CyclicPermutes | src/gal4j/operators/crossover/CyclicCrossOver.java:42-79 | for parents that are permutations of one set, CX succeeds and its offspring is a permutation of that set |
| CyclicCrossover.TraceCycle | src/gal4j/operators/crossover/CyclicCrossOver.java:54-68 | the do-while leaves the arrays as `Walk` computes, or reports its exception |
| CyclicCrossover.CyclicCross | src/gal4j/operators/crossover/CyclicCrossOver.java:42-79 | a fresh clone of the first parent holding `CyclicGenes`, or the first exception of the search |
| Mutations.MutatedAt | src/gal4j/operators/mutation/SinglePointMutation.java:48 | one `mutateGen` keeps the length |
| Mutations.MutatedAtChanges | src/gal4j/operators/mutation/SinglePointMutation.java:46-48 | one `mutateGen` changes at most its own position, and binary or decimal always change it |
| Mutations.MutatedWhere | src/gal4j/operators/mutation/BiasedMutation.java:55-59 | mutating the chosen positions keeps the length |
| Mutations.MutatedWhereChanges | src/gal4j/operators/mutation/BiasedMutation.java:55-59 | each chosen gene is replaced by its own mutation and every other gene is kept; binary and decimal change exactly the chosen genes |
| Mutations.MutatedWhereFits | src/gal4j/operators/mutation/BiasedMutation.java:55-59 | the representation's types and set genes are kept, and choosing nothing changes nothing |
| Mutations.SinglePointMutate | src/gal4j/operators/mutation/SinglePointMutation.java:44-53 | a chromosome without genes gives the `IllegalArgumentException` "bound must be positive" of `nextInt(0)`; otherwise the same chromosome comes back with `mutateGen` applied at the drawn point, well typed as before |
| Mutations.TwoPointChanges | src/gal4j/operators/mutation/TwoPointMutation.java:47-55 | the second mutation sees the original gene; binary and decimal change exactly the two points |
| Mutations.TwoPointMutate | src/gal4j/operators/mutation/TwoPointMutation.java:43-59 | a chromosome without genes gives the `IllegalArgumentException` "bound must be positive" of `nextInt(0)`; otherwise the same chromosome mutated at the first point and then at the redrawn second point |
| Mutations.SwapExchanges | src/gal4j/operators/mutation/SwapMutation.java:56-60 | the two genes trade places, nothing else changes, and the genes are permuted |
| Mutations.SwapGenes | src/gal4j/operators/mutation/SwapMutation.java:43-60 | the swap keeps the length |
| Mutations.SwapGenesPermutes | src/gal4j/operators/mutation/SwapMutation.java:43-60 | the swap mutation is a permutation that changes at most the two drawn positions |
| Mutations.SwapPair | src/gal4j/operators/mutation/SwapMutation.java:42-63 | the same chromosome with `SwapGenes` applied, unchanged below two genes |
| Mutations.ScrambleEnd | src/gal4j/operators/mutation/ScrambleMutation.java:55-58 | the end lies after the start and inside the chromosome |
| Mutations.ScrambleNeedsRoom | src/gal4j/operators/mutation/ScrambleMutation.java:55-58 | the end loop can only stop when the start leaves room after it |
| Mutations.Scrambled | src/gal4j/operators/mutation/ScrambleMutation.java:67-74 | a scrambled segment keeps its length |
| Mutations.ScrambledPermutes | src/gal4j/operators/mutation/ScrambleMutation.java:67-74 | the scrambled segment is a permutation; only a two-gene segment with an unset gene throws |
| Mutations.ScrambledFits | src/gal4j/operators/mutation/ScrambleMutation.java:67-74 | scrambling keeps the representation's types |
| Mutations.ScrambledTwoExchanges | src/gal4j/operators/mutation/ScrambleMutation.java:67-71 | a set two-gene segment always ends up exchanged |
| Mutations.Overwrite | src/gal4j/operators/mutation/ScrambleMutation.java:77-79 | writing the segment back keeps the length |
| Mutations.ScramblePermutes | src/gal4j/operators/mutation/ScrambleMutation.java:48-83 | genes outside the segment are kept and the genes are permuted; set genes never throw; a set two-gene segment is exchanged |
| Mutations.Scramble | src/gal4j/operators/mutation/ScrambleMutation.java:48-83 | the same chromosome with `ScrambleGenes` applied, or the exception with the genes untouched |
| Mutations.CopySegment | src/gal4j/operators/mutation/ScrambleMutation.java:62-65 | the genes on [start, end] in order |
| Mutations.WriteSegment | src/gal4j/operators/mutation/ScrambleMutation.java:77-79 | the genes become `Overwrite` of the segment |
| Mutations.BiasedChoice | src/gal4j/operators/mutation/BiasedMutation.java:53-56 | one choice per draw |
| Mutations.BiasedExtremes | src/gal4j/operators/mutation/BiasedMutation.java:53-56 | fitness 0 mutates every gene; a fitness below -1 mutates none |
| Mutations.BiasedFitterMutatesLess | src/gal4j/operators/mutation/BiasedMutation.java:53-56 | every gene a fitter chromosome has mutated, a less fit one has mutated too |
| Mutations.Biased | src/gal4j/operators/mutation/BiasedMutation.java:47-62 | the same chromosome with the genes chosen by the draws mutated |
| Mutations.NonUniformChoice | src/gal4j/operators/mutation/NonUniformMutation.java:63-68 | one choice per draw |
| Mutations.ProbabilityEnds | src/gal4j/operators/mutation/NonUniformMutation.java:79-81 | generation 0 mutates every gene; at the maximum generation no gene is mutated; with a maximum of 0 (NaN) none is |
| Mutations.GenerationSaturates | src/gal4j/operators/mutation/NonUniformMutation.java:86-90 | the counter climbs by one per call and stops at the maximum |
| Mutations.NonUniform.constructor | src/gal4j/operators/mutation/NonUniformMutation.java:31-36 | keeps b and the maximum; the counter starts at 0 |
| Mutations.NonUniform.MutationProbability | src/gal4j/operators/mutation/NonUniformMutation.java:79-81 | the probability is NaN exactly when the maximum is 0 and b is not; with both 0 it is 1 |
| Mutations.NonUniform.Mutate | src/gal4j/operators/mutation/NonUniformMutation.java:60-71 | a fresh clone with the genes chosen by the draws mutated; the argument is untouched |
| Mutations.NonUniform.NextGeneration | src/gal4j/operators/mutation/NonUniformMutation.java:86-90 | the counter moves on by one unless it has reached the maximum |
| Operators.Select | src/gal4j/operators/selection/ASelection.java:32 | every strategy's `select` only reorders the population (sorting it first exactly for elite, fitness-uniform and roulette-elitism selection when it is unsorted) and keeps the members' shape; it gives a chromosome exactly when `Chosen` names the member the strategy picks for its counters, draws and fitness values, and that chromosome is the member itself or a fresh copy with its genes |
| Operators.SameMembersKeepShape | src/gal4j/algorithm/Population.java:116 | reordering the members keeps every member's shape |
| Operators.SelectTournament | src/gal4j/operators/selection/TournamentSelection.java:55-67 | the population is left as it was; the result is the earliest fittest drawn contestant or a fresh copy of it, and none when the size is not positive or the population is empty |
| Operators.SelectElite | src/gal4j/operators/selection/EliteSelection.java:44-59 | after at most a sort, the member at the elite index, itself, and none when the index is past the population or equals the elite count |
| Operators.SelectRoulette | src/gal4j/operators/selection/RouletteWheelSelection.java:45-75 | the population is left as it was; the member the spin lands on or a fresh copy of it, and null when the walk runs past the end |
| Operators.SelectUniform | src/gal4j/operators/selection/FitnessUniformSelection.java:46-75 | after at most a sort, the member nearest the drawn target or a fresh copy of it, and none for an empty population |
| Operators.SelectReplacement | src/gal4j/operators/selection/RandomRepleacmentTournament.java:62-88 | the population is left as it was; the contestant at the drawn rank of the sorted tournament (rank 0 unless the replacement draw succeeds) or a fresh copy of it, and none when nobody is drawn or the population is empty |
| Operators.SelectRouletteElitism | src/gal4j/operators/selection/RouleteElitismSelection.java:65-101 | after at most a sort, the member at the elite index (restarted at 0 in a new generation) or the one the spin lands on, itself or a fresh copy; none with no elites in the elite branch or past the population |
| Operators.ElitismPick | src/gal4j/operators/selection/RouleteElitismSelection.java:65-101 | the roulette-elitism call gives exactly `Chosen` of its counters and draws, the member or a fresh copy of it |
| Operators.Reset | src/gal4j/operators/selection/ASelection.java:38-40 | `reset` empties the strategy's guard (`Cleared`), so the next selection hands members out themselves; the elite counters are untouched and the strategy's invariant is kept |
| Operators.CrossoverOfSetParents | src/gal4j/operators/crossover/ICrossover.java:21 | for set parents of one representation the single point, two point and order operators throw "bound must be positive" on parents without genes; apart from that only order and cyclic crossover can fail, and every offspring is set and of that representation |
| Operators.Cross | src/gal4j/operators/crossover/ICrossover.java:21 | a fresh chromosome shaped like the first parent holding `CrossoverResult`, or the operator's exception, including the exception of a point drawn among no genes |
| Operators.GeneDrawsSuffice | src/gal4j/chromosome/DecimalChromosome.java:144-150 | decimal draws below the length, holding two different values from two genes on, always contain one that differs from the gene, unless the gene is the 0 of a one-gene chromosome |
| Operators.GeneDrawsWhere | src/gal4j/operators/mutation/BiasedMutation.java:55-59 | such draws let every chosen position of a set chromosome be mutated, unless the chosen gene is that stuck 0 |
| Operators.ReorderedKeepsShape | src/gal4j/operators/mutation/SwapMutation.java:56-60 | reordering set genes of one representation keeps them so |
| Operators.MutationKeepsShape | src/gal4j/operators/mutation/IMutation.java:20 | every mutation keeps a set chromosome set and of its representation; swap and scramble only reorder its genes |
| Operators.PointMutationKeepsShape | src/gal4j/operators/mutation/SinglePointMutation.java:46-48 | a single point mutation of a set chromosome with genes keeps it set and of its representation |
| Operators.TwoPointMutationKeepsShape | src/gal4j/operators/mutation/TwoPointMutation.java:47-55 | a two point mutation of a set chromosome with genes keeps it set and of its representation |
| Operators.Mutate | src/gal4j/operators/mutation/IMutation.java:20 | the member's genes become `MutationResult`; the call throws "bound must be positive" exactly when a point mutation meets a chromosome without genes, and ends with `NoReturn` exactly when it would call `mutateGen` on the gene 0 of a one-gene decimal chromosome (the single point mutation, or a biased or non-uniform double that picks the gene); otherwise every operator but non-uniform returns the member itself, non-uniform returns a mutated clone |
| Checker.CheckedIsUsable | src/gal4j/utils/Checker.java:21-67 | after the check every size and rate is positive, threading is on exactly when more than one thread is set, the early stop is fully set or cleared, and the second-operator rate is untouched |
| Checker.UsableIsKept | src/gal4j/utils/Checker.java:21-67 | a configuration with nothing to repair passes unchanged |
| Checker.CheckIsIdempotent | src/gal4j/utils/Checker.java:21-67 | checking twice is checking once |
| Checker.CheckKeepsValidFields | src/gal4j/utils/Checker.java:24-65 | positive sizes and rates, a thread count above one and a fully set early stop are kept |
| Checker.CheckOfInitialAndDefault | src/gal4j/utils/Checker.java:21-67 | a new configuration takes the default sizes and rates but stays single-threaded; the default configuration passes unchanged |
| Checker.CheckConfig | src/gal4j/utils/Checker.java:21-67 | the configuration becomes `CheckedValues` of what it was |
| Checker.RepairSizes | src/gal4j/utils/Checker.java:24-38 | the five size and rate checks replace non-positive values by the defaults |
| Checker.RepairThreads | src/gal4j/utils/Checker.java:40-46 | the two threading checks, in order |
| Checker.CheckEngine | src/gal4j/utils/Checker.java:75-91 | no failure if and only if all four parts are present; otherwise the first missing part's IllegalArgumentException |
| Checker.OperatorFailure | src/gal4j/utils/Checker.java:101-112 | no failure if and only if all three primary operators are present; otherwise the first missing one's NullPointerException |
| Checker.CheckOperators | src/gal4j/utils/Checker.java:101-117 | returns `OperatorFailure`; on success with a secondary operator the second-operator rate becomes 0.25, and nothing else changes |
| Engines.WithinTargetIsInclusive | src/gal4j/algorithm/Engine.java:166-170 | with a non-negative tolerance the end condition holds exactly on the closed band around the target |
| Engines.WithinNegativeTolerance | src/gal4j/algorithm/Engine.java:166-170 | with a negative tolerance only the two ends of the band match |
| Engines.ClearedTargetNeedsExactFit | src/gal4j/algorithm/Engine.java:166-170 | the cleared early stop (target -1, tolerance 0) ends a run only at a best fitness of exactly -1 |
| Engines.ParentCountBounds | src/gal4j/algorithm/Engine.java:130 | `ParentCount`, the truncated product of size and rate: between 0 and the size for a rate in [0, 1], the whole size for a rate of 1, and never more than one below the exact product |
| Engines.SizeIsKept | src/gal4j/algorithm/Engine.java:130-135 | with a selection rate in (0, 1] the successor has the predecessor's size |
| Engines.SizeGrowsPastOne | src/gal4j/algorithm/Engine.java:130-135 | when more members are selected than there are, the successor has as many as were selected |
| Engines.SizeStaysConstant | src/gal4j/algorithm/Engine.java:108-150 | with a selection rate in (0, 1] every generation has the initial size |
| Engines.AdvancedStaysInRange | src/gal4j/operators/mutation/NonUniformMutation.java:86-90 | a non-uniform counter in range stays in range however often it is advanced |
| Engines.ShapesAreAllShaped | src/gal4j/algorithm/Engine.java:88-90 | members shaped by position are shaped as a set |
| Engines.ChildExtends | src/gal4j/algorithm/Engine.java:226-228 | appending to the successor keeps every earlier offspring an offspring of its parents |
| Engines.ShapesOfSameElements | src/gal4j/algorithm/Population.java:116 | the members' shape depends only on which chromosomes are members |
| Engines.NoParentsOfSameElements | src/gal4j/algorithm/Population.java:116 | whether a member is flagged depends only on which chromosomes are members |
| Engines.SameElements | src/gal4j/algorithm/Population.java:116 | sequences with one multiset hold the same chromosomes |
| Engines.Engine.constructor | src/gal4j/algorithm/Engine.java:71-78 | the four parts are stored, no operator is set, nothing is recorded and the engine is not ready |
| Engines.Engine.NewMember | src/gal4j/algorithm/Engine.java:88-89 | a fresh clone of the default chromosome, of its representation, whose genes are exactly `Initialized` of the draws, all set, unevaluated and not a parent |
| Engines.Engine.InitializePopulation | src/gal4j/algorithm/Engine.java:86-93 | appends one fresh, initialised clone of the default chromosome per draw list, each unevaluated and not a parent, and marks the engine ready |
| Engines.Engine.CheckEndConditions | src/gal4j/algorithm/Engine.java:165-177 | sorts unless sorted; an empty population throws; otherwise the result is whether the best fitness lies in the target band |
| Engines.Engine.Selection | src/gal4j/algorithm/Engine.java:208-214 | each selected chromosome, a member or a fresh copy, is flagged as a parent and appended; all are appended unless a call fails; the population is only reordered |
| Engines.Engine.SelectInto | src/gal4j/algorithm/Engine.java:210-212 | one selection: the strategy's choice is `Chosen` of its counters before the call, the population as the call leaves it and the draws; a chromosome is appended exactly when there is a choice, and it is that member or a fresh unevaluated copy with its genes, flagged as a parent; otherwise the failure is reported and nothing is appended |
| Engines.Engine.SelectParent | src/gal4j/algorithm/Engine.java:210-212 | one selection as the loop uses it: on success one chromosome, flagged as a parent and a member or a fresh copy, is appended; on failure nothing is |
| Engines.Engine.Pick | src/gal4j/algorithm/Engine.java:210 | the `select` call, with the choice `Chosen` names, a member of the population; the result delivers that choice |
| Engines.Engine.Deliver | src/gal4j/algorithm/Engine.java:210-212 | an exception or a null result is reported and appends nothing; otherwise the chromosome, the choice or its copy, is flagged and appended and the members' fitness values stay as they were |
| Engines.Engine.Adopt | src/gal4j/algorithm/Engine.java:211-212 | the selected chromosome, the strategy's choice or a copy of it, is flagged as a parent and appended, and every earlier parent flag in the successor stays set |
| Engines.Engine.Crossover | src/gal4j/algorithm/Engine.java:220-231 | each appended member is a fresh offspring of the two successor members its draws name under the chosen operator; an empty successor throws "bound must be positive"; a failure is the chosen operator's exception |
| Engines.Engine.BreedInto | src/gal4j/algorithm/Engine.java:222-229 | one mating appends a fresh offspring of the named parents, or reports the failure and appends nothing |
| Engines.Engine.Mutation | src/gal4j/algorithm/Engine.java:238-255 | the pass returns normally only if no call that happens throws; it throws "bound must be positive" only if some call that happens is a point mutation of members without genes, and ends with `NoReturn` only if some call that happens is a single point, biased or non-uniform mutation of one-gene decimal members; in both cases no counter advances; otherwise every member whose genes are not shared gets `MemberMutation` of its draws and each non-uniform counter advances once per slot holding it |
| Engines.Engine.MutateMembers | src/gal4j/algorithm/Engine.java:239-247 | the loop over the members stops at the first call that throws or never returns, with the same three outcomes and the same per-member result |
| Engines.Engine.MutateOne | src/gal4j/algorithm/Engine.java:240-245 | one member's step: its genes become `MemberMutation` of its draws; it throws exactly when the chosen operator is a point mutation and the member has no genes, and ends with `NoReturn` exactly when the chosen operator would mutate the member's stuck gene |
| Engines.Engine.MutateStep | src/gal4j/algorithm/Engine.java:240-245 | the same step as the pass counts it: members whose genes are not shared hold their mutated genes up to this one, and a non-returning step is one that can reach a stuck gene |
| Engines.Engine.AdvanceCounters | src/gal4j/algorithm/Engine.java:249-254 | each non-uniform counter advances once per operator slot holding it and stays in range |
| Engines.Engine.Breed | src/gal4j/algorithm/Engine.java:127-140 | the successor is fresh, of generation i + 1, of size `NextSize`, shaped like the default chromosome, with no parent flags, each member an old member or fresh; a positive population with no parents selected throws "bound must be positive"; on success the selection operator's guard is empty |
| Engines.Engine.Parents | src/gal4j/algorithm/Engine.java:130-132 | the selected parents are appended, all of them unless a call fails, and after success the selection operator is reset with its guard empty (`Cleared`) |
| Engines.Engine.Offspring | src/gal4j/algorithm/Engine.java:135-140 | crossover, mutation and the clearing of parent flags fill the successor to `NextSize` |
| Engines.Engine.MutateAndClear | src/gal4j/algorithm/Engine.java:138-140 | the members keep their shape and the successor's member list is untouched; a mutation that throws or never returns is reported with the outcomes of `Engines.Engine.Mutation`, before the flags are cleared; otherwise no member is flagged as a parent |
| Engines.Engine.Run | src/gal4j/algorithm/Engine.java:99-158 | initialises unless ready, fails as `checkOperators` does, sets the second-operator rate, records at most one population per generation; on success every member is evaluated, the size is the size after some number of generations, a bred population has no parent flags, and the loop ended because the generations ran out, the best member (its fitness being the fitness function of its genes) lies in the target band, or the last bred population holds one chromosome twice |
| Engines.Engine.Prepare | src/gal4j/algorithm/Engine.java:100-105 | initialises unless ready, then returns `OperatorFailure` and applies the second-operator rate |
| Engines.Engine.Evolve | src/gal4j/algorithm/Engine.java:108-157 | the loop and the final evaluation, with the same guarantees as `Run`, including why the loop ended |
| Engines.Engine.Passes | src/gal4j/algorithm/Engine.java:108-150 | earlier records are kept and at most one population is recorded per generation; on success the size is the size after some number of bred generations, every member is an old member or fresh, a bred population has no parent flags, and the loop ended because the generations ran out, the best member (its fitness being the fitness function of its genes) lies in the target band, or the last bred population holds one chromosome twice |
| Engines.Engine.EvaluateMembers | src/gal4j/algorithm/Engine.java:111-115 | every member's fitness becomes the fitness function of its genes, and nothing else changes |
| Engines.Engine.Generation | src/gal4j/algorithm/Engine.java:108-150 | one pass records the population; when the end condition holds it stops and keeps the population; otherwise the successor replaces it and the pass stops exactly when a chromosome sits twice in it |
| Engines.Engine.Advance | src/gal4j/algorithm/Engine.java:127-150 | the bred successor replaces the population, and the loop stops exactly when a chromosome sits twice in it |
| Engines.Engine.Evaluate | src/gal4j/algorithm/Engine.java:110-120 | members evaluated, the population recorded after sorting, and the end condition evaluated |
| Engines.Engine.EndCheck | src/gal4j/algorithm/Engine.java:110-120 | members evaluated, then the end condition on the sorted population; afterwards every member's fitness is the fitness function of its genes |
| Engines.Engine.SortedCheck | src/gal4j/algorithm/Engine.java:165-177 | the end check only reorders the members |
| Engines.NewEngine | src/gal4j/algorithm/Engine.java:71-81 | a missing part throws `checkEngine`'s exception with the configuration untouched; otherwise a fresh engine with its parts and a configuration repaired to `CheckedValues` |
| Knapsack.Unboxed | src/examples/BagFunc.java:29 | the `(int)` cast unboxes an Integer gene, throws NullPointerException on an unset gene and ClassCastException on a Character gene |
| Knapsack.CalculateFitness | src/examples/BagFunc.java:24-36 | the loop returns exactly `BagFitness` of the genes, exceptions included |
| Knapsack.ThrownPersists | src/examples/BagFunc.java:28-33 | an exception at some gene ends the loop with that exception |
| Knapsack.TotalsArePickedSums | src/examples/BagFunc.java:28-33 | with an item per gene and integer genes, the loop sums exactly the values and weights of the items whose gene is 1 |
| Knapsack.TotalsThrowIff | src/examples/BagFunc.java:28-33 | the loop throws if and only if some gene is not an Integer, or a gene equal to 1 has no item |
| Knapsack.OverweightScoresZero | src/examples/BagFunc.java:35 | a selection heavier than the capacity scores 0 |
| Knapsack.WithinCapacityScoresValue | src/examples/BagFunc.java:35 | a selection no heavier than the capacity scores the total value of the picked items |
| Knapsack.ExactWeightAccepted | src/examples/BagFunc.java:35 | a total weight exactly at the capacity is accepted |
| Knapsack.OtherGenesIgnored | src/examples/BagFunc.java:29 | a gene other than 1 adds neither value nor weight |
| Knapsack.PickedValueNonNegative | src/examples/BagFunc.java:28-33 | with non-negative item values the picked value is non-negative |
| Knapsack.FitnessNonNegative | src/examples/BagFunc.java:26-35 | with non-negative item values, integer genes and an item per gene the fitness is returned and is non-negative |
| Knapsack.ExampleScores | src/examples/Bag.java:23-25 | on the first three items with capacity 50, picking the last two scores 220 and picking all three scores 0 |

## Left out

- Multithreaded evaluation: `calculateFitPar` (src/gal4j/algorithm/Population.java:152-163) and the `Master`/`Worker` classes are not part of this model. The engine always evaluates sequentially, as `calculateFitSeq` does. The two agree only when the fitness function returns normally. If it throws, the sequential loop passes the exception out of `run`. A worker thread (src/gal4j/multithread/Worker.java:42-49) just ends, the member it was evaluating keeps its previous fitness, and `run` goes on.
- `Engines.Engine.Run`: the fitness function is a total function of the genes, so a fitness function that throws is not modelled. `Knapsack.CalculateFitness` models the exceptions of the knapsack example's own function.
- `Populations.Population.CalculateFitSeq`: the fitness function it applies is total, so the exception that would leave the loop part-way (src/gal4j/algorithm/Population.java:140-143) is not modelled.
- `Crossovers.TwoPoint`: on parents of exactly one gene the redraw loop (src/gal4j/operators/crossover/TwoPointCrossOver.java:54-56) never ends. The requires asks for redraws that end it, and `Common.RedrawNeedsTwoPositions` shows those exist only from two genes on, so that call is not modelled.
- `Mutations.TwoPointMutate`: on a chromosome of exactly one gene the redraw loop (src/gal4j/operators/mutation/TwoPointMutation.java:50-52) never ends; that call is not modelled, as for `Crossovers.TwoPoint`.
- `Mutations.Scramble`: when the start draw is the last position, the end loop (src/gal4j/operators/mutation/ScrambleMutation.java:55-58) never ends. The requires asks for an end draw that stops it, which `Mutations.ScrambleNeedsRoom` shows exists only when the start leaves room, so that call is not modelled.
- `Chromosomes.Chromosome.MutateGen`: on a decimal chromosome of one gene whose gene is 0 the redraw loop (src/gal4j/chromosome/DecimalChromosome.java:145-148) never ends, because `nextInt(1)` always gives 0 back. The requires asks for a differing draw, which `Chromosomes.DecimalMutationNeedsTwoValues` shows then needs two genes, so that call is not modelled here. `Operators.Mutate` and the engine reach it only through `Mutations.SinglePointMutate`, `Mutations.Biased` or `Mutations.NonUniform.Mutate`, and report `NoReturn` before making it.
- `Crossovers.SinglePoint`, `Crossovers.TwoPoint`, `Crossovers.ProbabilityCrossover.Crossover`, `Crossovers.NoiseReduction`, `Crossovers.Eccentric`, `OrderCrossover.OrderCross`, `CyclicCrossover.CyclicCross` and `Operators.Cross` require `Crossovers.Mates`: parents of one representation and one length. Java walks the first parent's positions and reads the second parent at each (for example src/gal4j/operators/crossover/SinglePointCrossOver.java:51-56), so a shorter second parent throws an `ArrayIndexOutOfBoundsException` and a longer one is accepted. Neither mismatch is modelled; the engine only mates members shaped like its default chromosome.
- Charts and `makeGraph` (src/gal4j/algorithm/Engine.java:184-198) are left out because they only draw output.
- All printing is left out: `printGenes`, `printPopulation`, the engine's messages and the checker's `printf`. Only the control flow around the printing is modelled.
- `DoubleChromosome` and the `Double` branches of noise-reduction and eccentric crossover are left out, because IEEE `double` rounding and NaN are outside the model. Java `double` fitness values and rates are exact `real`s.
- `Mutations.NonUniform.constructor`: `Math.pow` is a function given to the constructor, so the model proves nothing about its values.
- `java.util.Random`: every draw is a parameter with the range of the Java call that produces it. Which values the generator actually yields is not modelled.
- Getters and trivial accessors are modelled as direct field reads.
- `Item.java` is not part of this model. An item is a value-weight pair, and a `null` entry in the item list is not modelled.
- `Knapsack.CalculateFitness`: the `int` weight sum is unbounded, so 32-bit wrap-around of a huge total weight is not modelled. The `double` value sum is exact.
- Operators that dereference a gene (`equals`, unboxing) require every gene to be set. The `NullPointerException` paths are modelled only for cyclic crossover, scramble mutation and the knapsack function.
- `Engines.Engine.Mutation`: the per-member result is stated only for members whose gene array no other member shares. An aliased gene array, mutated twice through two members, is left unspecified.
- `Engines.Engine.Evaluate`: each recorded generation is a snapshot of the member sequence. The Java list is the population's own list, so a later in-place re-sort of the same population would also reorder the recorded entry; the model does not capture that.
- `Engines.Engine.Breed`: after a failure the contents of the partly built successor are unspecified. After a failure in `Engines.Engine.Run` the current population is unspecified.
- `Engines.Engine.Passes`: the contract says why the loop ended, judged on the final population. It does not say that no earlier recorded population met the end condition. The recorded chromosomes are shared objects, and mutation later changes their genes in place, so their state at recording time is not kept.
- `Engines.Engine.Run` requires the population to be made of well-formed chromosomes shaped like the default chromosome, as `initializePopulation` builds them, also when the engine is not ready yet; the members an uninitialised engine already holds are not otherwise modelled.
- `Engines.Engine.Selection`: the loop states that every appended chromosome is a flagged member or a fresh copy, but not which member each call chose. Each call's choice depends on the counters and the order the previous call left behind; `Engines.Engine.SelectInto` states that choice call by call.
- The example drivers (`example1`, `BagExample`, `TSPFunc`, `Area`, `Bag`) are not modelled, except the item values that `Knapsack.ExampleScores` uses.

## Findings

| source | as written | input that shows it | evidently intended | confidence | as-written member | corrected member |
|---|---|---|---|---|---|---|
| src/gal4j/operators/crossover/NoiseReductionCrossOver.java:46 | the Integer mean adds the two genes in 32-bit `int` arithmetic before halving, so the sum wraps around | genes 2^30 and 2^30 give -2^30 | the mean lies between the two genes | not executed | Crossovers.WrappedIntMeanOverflows | Crossovers.IntMeanBetween |
| src/gal4j/operators/crossover/EccentricCrossOver.java:72 | the mean used to pick the farther gene is computed from a wrapped 32-bit sum | genes -2^31 and -1 give -2^31, the smaller gene | the larger gene is the eccentric one | not executed | Crossovers.WrappedExtremeIntOverflows | Crossovers.ExtremeIntIsMax |
