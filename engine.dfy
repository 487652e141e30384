/**
 * The engine: it fills the population from the default chromosome, then
 * runs generations of evaluation, end check, selection, crossover and
 * mutation until the end condition holds, the generation budget is spent
 * or one chromosome sits twice in the new population. Every random draw
 * of a generation is handed in as one `Round` record.
 */
module Engines {
  import opened Common
  import opened Chromosomes
  import opened Populations
  import opened Configs
  import opened Operators
  import opened Selection
  import opened Checker
  import opened Mutations

  /** How often `for (j = 0; j < n; j++)` runs. */
  function Iterations(n: int): nat
  {
    if n < 0 then 0 else n
  }

  // ---------------------------------------------------------------------
  // The end condition

  /** `checkEndConditions` on the best fitness: strictly inside the band
    * around the target, or equal to one of its ends. */
  predicate WithinTarget(approximateFinalFit: real, delta: real, best: real)
  {
    var fitP := approximateFinalFit + delta;
    var fitN := approximateFinalFit - delta;
    (fitN < best && best < fitP) || best == fitN || best == fitP
  }

  /** With a non-negative tolerance the band is closed at both ends. */
  lemma WithinTargetIsInclusive(approximateFinalFit: real, delta: real, best: real)
    requires delta >= 0.0
    ensures WithinTarget(approximateFinalFit, delta, best) <==>
      approximateFinalFit - delta <= best <= approximateFinalFit + delta
  {
  }

  /** With a negative tolerance the band is empty and only its two ends match. */
  lemma WithinNegativeTolerance(approximateFinalFit: real, delta: real, best: real)
    requires delta < 0.0
    ensures WithinTarget(approximateFinalFit, delta, best) <==>
      best == approximateFinalFit - delta || best == approximateFinalFit + delta
  {
  }

  /** The cleared early stop (target -1, tolerance 0) ends a run only when
    * the best fitness is exactly -1. */
  lemma ClearedTargetNeedsExactFit(best: real)
    ensures WithinTarget(-1.0, 0.0, best) <==> best == -1.0
  {
  }

  // ---------------------------------------------------------------------
  // Sizes

  /** A size scaled by a rate in [0, 1] stays between 0 and the size. */
  lemma ScaledSize(size: int, rate: real)
    ensures size >= 0 && 0.0 <= rate ==> size as real * rate >= 0.0
    ensures size >= 0 && rate <= 1.0 ==> size as real * rate <= size as real
  {
    if size >= 0 && rate <= 1.0 {
      assert size as real * (1.0 - rate) >= 0.0;
    }
  }

  /** `(int) (size * selectionRate)`: how many members are selected. */
  function ParentCount(size: int, selectionRate: real): int
  {
    TruncateToInt(size as real * selectionRate)
  }

  /** The number of selected members lies between 0 and the size for a
    * rate in [0, 1], is the whole size for a rate of 1, and is the exact
    * product rounded down for a non-negative rate. */
  lemma ParentCountBounds(size: int, selectionRate: real)
    ensures size >= 0 && 0.0 <= selectionRate <= 1.0 ==> 0 <= ParentCount(size, selectionRate) <= size
    ensures size >= 0 && selectionRate == 1.0 ==> ParentCount(size, selectionRate) == size
    ensures size >= 0 && selectionRate >= 0.0 ==>
      ParentCount(size, selectionRate) as real <= size as real * selectionRate < ParentCount(size, selectionRate) as real + 1.0
  {
    ScaledSize(size, selectionRate);
  }

  /** The successor's size: the selected members, then one offspring for
    * each remaining place of the predecessor. */
  function NextSize(size: int, parentCount: int): nat
  {
    Iterations(parentCount) + Iterations(size - parentCount)
  }

  /** The size at the start of generation `k`. */
  function SizeAt(size: int, selectionRate: real, k: nat): int
  {
    if k == 0 then size
    else
      var previous := SizeAt(size, selectionRate, k - 1);
      NextSize(previous, ParentCount(previous, selectionRate))
  }

  /** A selection rate in (0, 1] selects at most the whole population, so
    * the successor has exactly the predecessor's size. */
  lemma SizeIsKept(size: nat, selectionRate: real)
    requires 0.0 <= selectionRate <= 1.0
    ensures 0 <= ParentCount(size, selectionRate) <= size
    ensures NextSize(size, ParentCount(size, selectionRate)) == size
  {
    var x := size as real * selectionRate;
    assert 0.0 <= x <= size as real by {
      assert size as real - x == size as real * (1.0 - selectionRate);
    }
    assert x.Floor <= size;
  }

  /** A rate above 1 makes the population grow to the number selected. */
  lemma SizeGrowsPastOne(size: nat, parentCount: int)
    requires parentCount > size
    ensures NextSize(size, parentCount) == parentCount
  {
  }

  /** Under a rate in (0, 1] every generation has the initial size. */
  lemma {:induction false} SizeStaysConstant(size: nat, selectionRate: real, k: nat)
    requires 0.0 <= selectionRate <= 1.0
    ensures SizeAt(size, selectionRate, k) == size
  {
    if k > 0 {
      SizeStaysConstant(size, selectionRate, k - 1);
      SizeIsKept(size, selectionRate);
    }
  }

  // ---------------------------------------------------------------------
  // Draws

  /** The draws of one crossover: the two parent indices, the double that
    * decides for the secondary operator, and the operator's own draws. */
  datatype Mating = Mating(parent1: int, parent2: int, secondary: real, draw: CrossoverDraw)

  /** The draws of one member's mutation: the double compared with the
    * mutation rate, the double that decides for the secondary operator,
    * and the operator's own draws. */
  datatype MutationCall = MutationCall(mutate: real, secondary: real, draw: MutationDraw)

  /** Every draw of one generation. */
  datatype Round = Round(selections: seq<SelectionDraw>, matings: seq<Mating>, mutations: seq<MutationCall>)

  /** The secondary crossover when it is set and its draw is at most the rate. */
  function ChosenCrossover(primary: CrossoverOperator, secondary: Option<CrossoverOperator>, rate: real, draw: real): CrossoverOperator
  {
    if secondary.Some? && draw <= rate then secondary.value else primary
  }

  /** The secondary mutation when it is set and its draw is at most the rate. */
  function ChosenMutation(primary: MutationOperator, secondary: Option<MutationOperator>, rate: real, draw: real): MutationOperator
  {
    if secondary.Some? && draw <= rate then secondary.value else primary
  }

  /** Parent indices lie in the successor as it is when they are drawn
    * (`base` members before the first crossover), unless it is empty,
    * and each crossover's draws fit the operator chosen. */
  predicate MatingsFit(primary: CrossoverOperator, secondary: Option<CrossoverOperator>, rate: real,
                       base: nat, length: int, matings: seq<Mating>)
  {
    forall k :: 0 <= k < |matings| ==>
      && (base + k > 0 ==> 0 <= matings[k].parent1 < base + k && 0 <= matings[k].parent2 < base + k)
      && CrossoverDrawFits(ChosenCrossover(primary, secondary, rate, matings[k].secondary), length, matings[k].draw)
  }

  /** Each mutation that happens has draws fitting the operator chosen. */
  predicate CallsFit(primary: MutationOperator, secondary: Option<MutationOperator>, rate: real, mutationRate: real,
                     kind: Kind, length: int, calls: seq<MutationCall>)
  {
    forall k :: 0 <= k < |calls| ==> calls[k].mutate <= mutationRate ==>
      MutationDrawFits(ChosenMutation(primary, secondary, rate, calls[k].secondary), kind, length, calls[k].draw)
  }

  /** A mutation that happens and throws: a point mutation of a member
    * without genes. */
  predicate MutationFails(primary: MutationOperator, secondary: Option<MutationOperator>, rate: real, mutationRate: real,
                          length: int, call: MutationCall)
  {
    call.mutate <= mutationRate && MutationThrows(ChosenMutation(primary, secondary, rate, call.secondary), length)
  }

  /** A mutation that happens and can reach `mutateGen` on a stuck gene:
    * the single point, biased or non-uniform mutation of a one-gene
    * decimal member. */
  predicate MayHang(primary: MutationOperator, secondary: Option<MutationOperator>, rate: real, mutationRate: real,
                    kind: Kind, length: int, call: MutationCall)
  {
    && kind.Decimal? && length == 1 && call.mutate <= mutationRate
    && var op := ChosenMutation(primary, secondary, rate, call.secondary);
       op.SinglePointMutation? || op.BiasedMutation? || op.NonUniformMutation?
  }

  /** After the first `j` calls of the mutation pass over `s`, which held
    * `before`, every member whose gene array no other member shares holds
    * its mutated genes if its call came and its old genes otherwise. */
  ghost predicate MutatedUpTo(s: seq<Chromosome>, before: seq<seq<Gene>>, j: int, primary: MutationOperator,
                              secondary: Option<MutationOperator>, rate: real, mutationRate: real,
                              kind: Kind, length: int, calls: seq<MutationCall>)
    reads s, set c | c in s :: c.genes
  {
    && |before| == |s| == |calls|
    && (forall k :: 0 <= k < |s| ==> AllFit(kind, before[k]) && AllSet(before[k]) && |before[k]| == length)
    && CallsFit(primary, secondary, rate, mutationRate, kind, length, calls)
    && forall k :: 0 <= k < |s| && Alone(s, k) ==>
         s[k].genes[..] == if k < j then MemberMutation(primary, secondary, rate, mutationRate, kind, before[k], s[k].fitness, calls[k])
                           else before[k]
  }

  /** None of the first `n` calls throws. */
  predicate NoneFails(primary: MutationOperator, secondary: Option<MutationOperator>, rate: real, mutationRate: real,
                      length: int, calls: seq<MutationCall>, n: int)
    requires n <= |calls|
  {
    forall k :: 0 <= k < n ==> !MutationFails(primary, secondary, rate, mutationRate, length, calls[k])
  }

  /** One more call that does not throw extends the calls none of which throws. */
  lemma NoneFailsExtends(primary: MutationOperator, secondary: Option<MutationOperator>, rate: real, mutationRate: real,
                         length: int, calls: seq<MutationCall>, n: int)
    requires 0 <= n < |calls| && NoneFails(primary, secondary, rate, mutationRate, length, calls, n)
    requires !MutationFails(primary, secondary, rate, mutationRate, length, calls[n])
    ensures NoneFails(primary, secondary, rate, mutationRate, length, calls, n + 1)
  {
  }

  /** A member's genes after the mutation pass: unchanged unless its draw
    * is at most the mutation rate, and then the chosen operator's result. */
  function MemberMutation(primary: MutationOperator, secondary: Option<MutationOperator>, rate: real, mutationRate: real,
                          kind: Kind, genes: seq<Gene>, fitness: real, call: MutationCall): seq<Gene>
    requires AllFit(kind, genes) && AllSet(genes)
    requires call.mutate <= mutationRate ==>
      MutationDrawFits(ChosenMutation(primary, secondary, rate, call.secondary), kind, |genes|, call.draw)
  {
    if call.mutate <= mutationRate
    then MutationResult(ChosenMutation(primary, secondary, rate, call.secondary), kind, genes, fitness, call.draw)
    else genes
  }

  /** No other member shares the gene array of member `j`. */
  predicate Alone(s: seq<Chromosome>, j: int)
    requires 0 <= j < |s|
  {
    forall k :: 0 <= k < |s| && k != j ==> s[k].genes != s[j].genes
  }

  /** The non-uniform counters an operator slot holds. */
  function CounterOf(op: Option<MutationOperator>): set<NonUniform>
  {
    if op.Some? && op.value.NonUniformMutation? then {op.value.nonUniform} else {}
  }

  /** How many of the two slots hold counter `nu`. */
  function Occurrences(nu: NonUniform, primary: Option<MutationOperator>, secondary: Option<MutationOperator>): nat
  {
    (if nu in CounterOf(primary) then 1 else 0) + (if nu in CounterOf(secondary) then 1 else 0)
  }

  /** A counter after `times` calls of `nextGeneration`. */
  function Advanced(current: int, maxGenerations: int, times: nat): int
  {
    if times == 0 then current
    else NextGenerationOf(Advanced(current, maxGenerations, times - 1), maxGenerations)
  }

  /** However often it is advanced, a counter in range stays in range. */
  lemma {:induction false} AdvancedStaysInRange(current: int, maxGenerations: int, times: nat)
    requires 0 <= current && (current <= maxGenerations || current == 0)
    ensures var c := Advanced(current, maxGenerations, times);
      0 <= c && (c <= maxGenerations || c == 0) && current <= c
  {
    if times > 0 {
      AdvancedStaysInRange(current, maxGenerations, times - 1);
    }
  }

  /** Every member, by position, has the given representation and length
    * and every gene set. */
  ghost predicate Shapes(s: seq<Chromosome>, kind: Kind, length: int)
    reads set c | c in s :: c.genes
  {
    forall k :: 0 <= k < |s| ==> Shaped(s[k], kind, length)
  }

  lemma ShapesAreAllShaped(s: seq<Chromosome>, kind: Kind, length: int)
    ensures Shapes(s, kind, length) <==> AllShaped(s, kind, length)
  {
  }

  /** Appending a member of the shape keeps every member of the shape. */
  lemma ShapesAppend(s: seq<Chromosome>, c: Chromosome, kind: Kind, length: int)
    requires Shapes(s, kind, length) && Shaped(c, kind, length)
    ensures Shapes(s + [c], kind, length)
  {
  }

  /** `c` is the chromosome a selection call chose, `member`, or a copy
    * of it: its representation and genes, and no fitness. */
  ghost predicate ParentOf(c: Chromosome, member: Chromosome)
    reads c, c.genes, member.genes
  {
    c == member || (c.kind == member.kind && c.genes[..] == member.genes[..] && c.fitness == 0.0)
  }

  /** Member `k` of `s` is the offspring `op` breeds from the two members
    * before it that `m` names: their crossover result, no fitness yet and
    * no parent flag. */
  ghost predicate Child(s: seq<Chromosome>, k: int, m: Mating, op: CrossoverOperator)
    reads s, set c | c in s :: c.genes
  {
    && 0 <= m.parent1 < k < |s| && 0 <= m.parent2 < k
    && s[m.parent1].genes.Length == s[m.parent2].genes.Length
    && CrossoverDrawFits(op, s[m.parent1].genes.Length, m.draw)
    && CrossoverResult(op, s[m.parent1].genes[..], s[m.parent2].genes[..], m.draw) == Ok(s[k].genes[..])
    && s[k].fitness == 0.0 && !s[k].isParent
  }

  /** Member `k` of `s` is the offspring of the mating drawn for it, the
    * `k - base`-th, under the operator chosen for that mating. */
  ghost predicate Bred(s: seq<Chromosome>, k: int, base: int, matings: seq<Mating>,
                       primary: CrossoverOperator, secondary: Option<CrossoverOperator>, rate: real)
    reads s, set c | c in s :: c.genes
  {
    && 0 <= k - base < |matings|
    && Child(s, k, matings[k - base], ChosenCrossover(primary, secondary, rate, matings[k - base].secondary))
  }

  /** Breeding into `s` with `m` fails with `e`: `s` is empty, so no
    * parent index can be drawn, or the operator throws `e`. */
  ghost predicate Failed(s: seq<Chromosome>, m: Mating, op: CrossoverOperator, e: Exception)
    reads set c | c in s :: c.genes
  {
    if |s| == 0 then e == IllegalArgument(BoundMessage)
    else
      && 0 <= m.parent1 < |s| && 0 <= m.parent2 < |s|
      && s[m.parent1].genes.Length == s[m.parent2].genes.Length
      && CrossoverDrawFits(op, s[m.parent1].genes.Length, m.draw)
      && CrossoverResult(op, s[m.parent1].genes[..], s[m.parent2].genes[..], m.draw) == Thrown(e)
  }

  /** Appending a member keeps every earlier offspring an offspring. */
  lemma ChildExtends(s: seq<Chromosome>, x: Chromosome, k: int, m: Mating, op: CrossoverOperator)
    requires Child(s, k, m, op)
    ensures Child(s + [x], k, m, op)
  {
    var t := s + [x];
    assert t[m.parent1] == s[m.parent1] && t[m.parent2] == s[m.parent2] && t[k] == s[k];
  }

  /** Whether every member has a shape depends only on which chromosomes
    * are members. */
  lemma ShapesOfSameElements(s: seq<Chromosome>, t: seq<Chromosome>, kind: Kind, length: int)
    requires Shapes(s, kind, length) && forall c :: c in t ==> c in s
    ensures Shapes(t, kind, length)
  {
    ShapesAreAllShaped(s, kind, length);
    ShapesAreAllShaped(t, kind, length);
  }

  /** No member is flagged as a parent. */
  predicate NoParents(s: seq<Chromosome>)
    reads s
  {
    forall k :: 0 <= k < |s| ==> !s[k].isParent
  }

  /** Whether a member is flagged depends only on which chromosomes are members. */
  lemma NoParentsOfSameElements(s: seq<Chromosome>, t: seq<Chromosome>)
    requires forall c :: c in t <==> c in s
    ensures NoParents(t) <==> NoParents(s)
  {
    if NoParents(s) {
      forall k | 0 <= k < |t|
        ensures !t[k].isParent
      {
        assert t[k] in s;
      }
    }
    if NoParents(t) {
      forall k | 0 <= k < |s|
        ensures !s[k].isParent
      {
        assert s[k] in t;
      }
    }
  }

  /** Sequences with one multiset hold the same elements. */
  lemma SameElements<T>(s: seq<T>, t: seq<T>)
    requires multiset(s) == multiset(t)
    ensures forall x :: x in s <==> x in t
  {
    forall x
      ensures x in s <==> x in t
    {
      assert x in s <==> x in multiset(s);
    }
  }

  /** The operators and flags set on an engine. */
  datatype Setup = Setup(crossoverPR: Option<CrossoverOperator>, mutationPR: Option<MutationOperator>,
                         selection: Option<SelectionOperator>, crossoverSC: Option<CrossoverOperator>,
                         mutationSC: Option<MutationOperator>)

  /** The draws of one generation from a population of `size`, under the
    * operators `ops` and the configuration `v`: a selection draw for each
    * parent, a mating for each remaining place and a mutation call for
    * each member of the successor. */
  predicate RoundFits(ops: Setup, v: ConfigValues, kind: Kind, length: int, size: int, round: Round)
    requires ops.selection.Some? && ops.crossoverPR.Some? && ops.mutationPR.Some?
  {
    var parentCount := ParentCount(size, v.selectionRate);
    && |round.selections| == Iterations(parentCount)
    && (forall k :: 0 <= k < |round.selections| ==> SelectionDrawFits(ops.selection.value, size, round.selections[k]))
    && |round.matings| == Iterations(size - parentCount)
    && MatingsFit(ops.crossoverPR.value, ops.crossoverSC, v.secondOperatorRate, Iterations(parentCount), length, round.matings)
    && |round.mutations| == NextSize(size, parentCount)
    && CallsFit(ops.mutationPR.value, ops.mutationSC, v.secondOperatorRate, v.mutationRate, kind, length, round.mutations)
  }

  /** Every chromosome of `s` from position `from` on is one of `members`
    * or was allocated, with its gene array, after the old state. */
  twostate predicate KeptOrFresh(new s: seq<Chromosome>, from: nat, members: seq<Chromosome>)
  {
    forall k :: from <= k < |s| ==> s[k] in members || (fresh(s[k]) && fresh(s[k].genes))
  }

  /** The chromosomes of `s` from position `from` on were allocated, with
    * their gene arrays, after the old state. */
  twostate predicate FreshFrom(new s: seq<Chromosome>, from: nat)
  {
    forall k :: from <= k < |s| ==> fresh(s[k]) && fresh(s[k].genes)
  }

  /** Appending chromosomes allocated since the old state keeps a
    * sequence made of old members and new chromosomes. */
  twostate lemma KeptOrFreshAppend(new s: seq<Chromosome>, new prefix: seq<Chromosome>, members: seq<Chromosome>)
    requires KeptOrFresh(prefix, 0, members)
    requires |prefix| <= |s| && s[..|prefix|] == prefix
    requires FreshFrom(s, |prefix|)
    ensures KeptOrFresh(s, 0, members)
  {
    forall k | 0 <= k < |s|
      ensures s[k] in members || (fresh(s[k]) && fresh(s[k].genes))
    {
      if k < |prefix| {
        assert s[k] == prefix[k];
      }
    }
  }

  class Engine {
    const config: Config
    var population: Population
    const fitness: seq<Gene> -> real
    const defChromosome: Chromosome
    var crossoverOperatorPR: Option<CrossoverOperator>
    var mutationOperatorPR: Option<MutationOperator>
    var selectionOperator: Option<SelectionOperator>
    var crossoverOperatorSC: Option<CrossoverOperator>
    var mutationOperatorSC: Option<MutationOperator>
    /** The populations evaluated so far, as they stand after the end check. */
    var generations: seq<seq<Chromosome>>
    var ready: bool

    /** The fields the constructor sets; no operator is set yet. */
    constructor (config: Config, population: Population, fitness: seq<Gene> -> real, defChromosome: Chromosome)
      ensures this.config == config && this.population == population
      ensures this.fitness == fitness && this.defChromosome == defChromosome
      ensures Operators() == Setup(None, None, None, None, None)
      ensures generations == [] && !ready
    {
      this.config := config;
      this.population := population;
      this.fitness := fitness;
      this.defChromosome := defChromosome;
      crossoverOperatorPR := None;
      mutationOperatorPR := None;
      selectionOperator := None;
      crossoverOperatorSC := None;
      mutationOperatorSC := None;
      generations := [];
      ready := false;
    }

    function Operators(): Setup
      reads this
    {
      Setup(crossoverOperatorPR, mutationOperatorPR, selectionOperator, crossoverOperatorSC, mutationOperatorSC)
    }

    /** The three primary operators are set. */
    predicate Operational()
      reads this
    {
      selectionOperator.Some? && crossoverOperatorPR.Some? && mutationOperatorPR.Some?
    }

    /** Members of the default chromosome's representation and length, every gene set. */
    ghost predicate Conforming(s: seq<Chromosome>)
      reads set c | c in s :: c.genes
    {
      Shapes(s, defChromosome.kind, defChromosome.genes.Length)
    }

    /** How the loop of `run` can end after `passes` of at most `limit`
      * passes with `s` as the population: the generations ran out, the best
      * member reached the target band, or one chromosome occurs twice. */
    ghost predicate Finished(passes: int, limit: int, s: seq<Chromosome>)
      reads config, set c | c in s :: c.genes
    {
      || passes == limit
      || (|s| > 0 && WithinTarget(config.approximateFinalFit, config.delta, fitness(s[0].genes[..])))
      || HasRepeat(s)
    }

    function SelectionFrame(): set<object>
      reads this
    {
      if selectionOperator.Some? then SelectionState(selectionOperator.value) else {}
    }

    function Counters(): set<NonUniform>
      reads this
    {
      CounterOf(mutationOperatorPR) + CounterOf(mutationOperatorSC)
    }

    /** The operators' own state is consistent. */
    ghost predicate OperatorsValid()
      reads this, SelectionFrame(), Counters()
    {
      && (selectionOperator.Some? ==> SelectionValid(selectionOperator.value))
      && forall nu :: nu in Counters() ==> nu.Valid()
    }

    /** The second-operator rate `checkOperators` leaves. */
    function CheckedRate(): real
      reads this, config
    {
      if Operational() && (crossoverOperatorSC.Some? || mutationOperatorSC.Some?) then 0.25
      else config.secondOperatorRate
    }

    // -------------------------------------------------------------------
    // Initialisation

    /** Draws for `populationSize` initialisations of the default chromosome. */
    ghost predicate InitDrawsFit(draws: seq<seq<int>>)
      reads config
    {
      && |draws| == Iterations(config.populationSize)
      && forall k :: 0 <= k < |draws| ==> InitDraws(defChromosome.kind, defChromosome.genes.Length, draws[k])
    }

    /** Appends `populationSize` fresh, initialised clones of the default
      * chromosome and marks the engine ready. */
    method InitializePopulation(draws: seq<seq<int>>)
      requires InitDrawsFit(draws)
      modifies this, population
      ensures ready && Operators() == old(Operators()) && population == old(population)
      ensures generations == old(generations) && population.sorted == old(population.sorted)
      ensures |population.chromosomes| == |old(population.chromosomes)| + |draws|
      ensures population.chromosomes[..|old(population.chromosomes)|] == old(population.chromosomes)
      ensures FreshFrom(population.chromosomes, |old(population.chromosomes)|)
      ensures forall k :: |old(population.chromosomes)| <= k < |population.chromosomes| ==>
        var c := population.chromosomes[k];
        && c.kind == defChromosome.kind && c.Ready()
        && c.genes[..] == Initialized(defChromosome.kind, defChromosome.genes.Length, draws[k - |old(population.chromosomes)|])
        && c.fitness == 0.0 && !c.isParent
    {
      ghost var base := |population.chromosomes|;
      var i := 0;
      while i < config.populationSize
        invariant 0 <= i <= |draws|
        invariant population == old(population) && Operators() == old(Operators()) && generations == old(generations)
        invariant |population.chromosomes| == base + i
        invariant population.chromosomes[..base] == old(population.chromosomes)
        invariant population.sorted == old(population.sorted)
        invariant FreshFrom(population.chromosomes, base)
        invariant forall k :: base <= k < base + i ==>
          var c := population.chromosomes[k];
          && c.kind == defChromosome.kind && c.Ready()
          && c.genes[..] == Initialized(defChromosome.kind, defChromosome.genes.Length, draws[k - base])
          && c.fitness == 0.0 && !c.isParent
      {
        var chromosome := NewMember(draws[i]);
        population.AddChromosome(chromosome);
        i := i + 1;
      }
      ready := true;
    }

    /** One member of the initial population: a clone of the default
      * chromosome with its genes initialised from `draw`. */
    method NewMember(draw: seq<int>) returns (c: Chromosome)
      requires InitDraws(defChromosome.kind, defChromosome.genes.Length, draw)
      ensures fresh(c) && fresh(c.genes) && c.kind == defChromosome.kind && c.Ready()
      ensures c.genes[..] == Initialized(defChromosome.kind, defChromosome.genes.Length, draw)
      ensures c.fitness == 0.0 && !c.isParent
    {
      c := defChromosome.Clone();
      c.Initialize(draw);
    }

    // -------------------------------------------------------------------
    // The end condition

    /** The best fitness against the target band. An empty population is
      * sorted first, as an unsorted one is, and then has no best member. */
    method CheckEndConditions() returns (r: Outcome<bool>)
      modifies population
      ensures population.chromosomes ==
        if old(population.sorted) then old(population.chromosomes) else SortByFitness(old(population.chromosomes))
      ensures population.sorted
      ensures |population.chromosomes| == 0 ==> r == Thrown(IndexOutOfBounds)
      ensures |population.chromosomes| > 0 ==>
        r == Ok(WithinTarget(config.approximateFinalFit, config.delta, population.chromosomes[0].fitness))
    {
      var fitP := config.approximateFinalFit + config.delta;
      var fitN := config.approximateFinalFit - config.delta;
      SortPermutes(population.chromosomes);
      var best := population.GetBestChromosome();
      if best.Thrown? {
        return Thrown(best.exception);
      }
      var fit := best.value.fitness;
      var res := (fitN < fit && fit < fitP) || fit == fitN || fit == fitP;
      r := Ok(res);
    }

    // -------------------------------------------------------------------
    // Selection

    /** `parentCount` calls of the selection operator; each chromosome it
      * returns is marked as a parent and appended to `newPopulation`. A
      * failing call, or a null result, ends the loop with its exception. */
    method Selection(population: Population, newPopulation: Population, parentCount: int, draws: seq<SelectionDraw>)
      returns (r: Option<Exception>)
      requires selectionOperator.Some? && SelectionValid(selectionOperator.value)
      requires population != newPopulation
      requires |draws| == Iterations(parentCount)
      requires forall k :: 0 <= k < |draws| ==> SelectionDrawFits(selectionOperator.value, |population.chromosomes|, draws[k])
      requires Conforming(population.chromosomes) && Conforming(newPopulation.chromosomes)
      modifies population, newPopulation, SelectionState(selectionOperator.value), set c | c in population.chromosomes
      ensures SelectionValid(selectionOperator.value)
      ensures multiset(population.chromosomes) == multiset(old(population.chromosomes))
      ensures Conforming(population.chromosomes) && Conforming(newPopulation.chromosomes)
      ensures |old(newPopulation.chromosomes)| <= |newPopulation.chromosomes| <= |old(newPopulation.chromosomes)| + |draws|
      ensures newPopulation.chromosomes[..|old(newPopulation.chromosomes)|] == old(newPopulation.chromosomes)
      ensures r == None <==> |newPopulation.chromosomes| == |old(newPopulation.chromosomes)| + |draws|
      ensures forall k :: |old(newPopulation.chromosomes)| <= k < |newPopulation.chromosomes| ==>
        newPopulation.chromosomes[k].isParent
      ensures KeptOrFresh(newPopulation.chromosomes, |old(newPopulation.chromosomes)|, old(population.chromosomes))
    {
      var op := selectionOperator.value;
      assert this !in SelectionState(op);
      var kind, length := defChromosome.kind, defChromosome.genes.Length;
      ghost var members := population.chromosomes;
      var base := |newPopulation.chromosomes|;
      var j := 0;
      r := None;
      while j < parentCount
        invariant 0 <= j <= |draws|
        invariant SelectionValid(op)
        invariant multiset(population.chromosomes) == multiset(members)
        invariant Shapes(population.chromosomes, kind, length) && Shapes(newPopulation.chromosomes, kind, length)
        invariant |newPopulation.chromosomes| == base + j
        invariant newPopulation.chromosomes[..base] == old(newPopulation.chromosomes)
        invariant forall k :: base <= k < base + j ==> newPopulation.chromosomes[k].isParent
        invariant KeptOrFresh(newPopulation.chromosomes, base, members)
      {
        SameElements(population.chromosomes, members);
        ghost var prefix := newPopulation.chromosomes;
        var e := SelectParent(op, population, newPopulation, draws[j], kind, length);
        if e.Some? {
          r := e;
          break;
        }
        ghost var chosen := newPopulation.chromosomes[base + j];
        assert newPopulation.chromosomes == prefix + [chosen];
        assert chosen in members || (fresh(chosen) && fresh(chosen.genes));
        j := j + 1;
      }
    }

    /** One selection as the loop of `Selection` sees it: the appended
      * chromosome is a member or a fresh copy, without the strategy's
      * choice, which `SelectInto` states. */
    static method SelectParent(op: SelectionOperator, population: Population, newPopulation: Population,
                               d: SelectionDraw, kind: Kind, length: int)
      returns (r: Option<Exception>)
      requires SelectionValid(op) && SelectionDrawFits(op, |population.chromosomes|, d)
      requires population != newPopulation
      requires Shapes(population.chromosomes, kind, length) && Shapes(newPopulation.chromosomes, kind, length)
      modifies population, newPopulation, SelectionState(op), set c | c in population.chromosomes
      ensures SelectionValid(op)
      ensures multiset(population.chromosomes) == multiset(old(population.chromosomes))
      ensures Shapes(population.chromosomes, kind, length) && Shapes(newPopulation.chromosomes, kind, length)
      ensures r.Some? ==> newPopulation.chromosomes == old(newPopulation.chromosomes)
      ensures r == None ==>
        && |newPopulation.chromosomes| == |old(newPopulation.chromosomes)| + 1
        && newPopulation.chromosomes[..|old(newPopulation.chromosomes)|] == old(newPopulation.chromosomes)
      ensures r == None ==>
        var c := newPopulation.chromosomes[|old(newPopulation.chromosomes)|];
        c.isParent && (c in old(population.chromosomes) || (fresh(c) && fresh(c.genes)))
      ensures forall k :: 0 <= k < |old(newPopulation.chromosomes)| && old(newPopulation.chromosomes[k].isParent) ==>
        newPopulation.chromosomes[k].isParent
    {
      var e, _ := SelectInto(op, population, newPopulation, d, kind, length);
      r := e;
    }

    /** One selection: the chosen chromosome is marked as a parent and
      * appended; a failing call or a null result is reported instead. */
    static method SelectInto(op: SelectionOperator, population: Population, newPopulation: Population,
                             d: SelectionDraw, kind: Kind, length: int)
      returns (r: Option<Exception>, chosen: Option<Chromosome>)
      requires SelectionValid(op) && SelectionDrawFits(op, |population.chromosomes|, d)
      requires population != newPopulation
      requires Shapes(population.chromosomes, kind, length) && Shapes(newPopulation.chromosomes, kind, length)
      modifies population, newPopulation, SelectionState(op), set c | c in population.chromosomes
      ensures SelectionValid(op)
      ensures multiset(population.chromosomes) == multiset(old(population.chromosomes))
      ensures Shapes(population.chromosomes, kind, length) && Shapes(newPopulation.chromosomes, kind, length)
      ensures chosen == Chosen(op, old(CursorOf(op)), population.chromosomes, Fitnesses(population.chromosomes),
                               population.generation, d)
      ensures r == None <==> chosen.Some?
      ensures r.Some? ==> newPopulation.chromosomes == old(newPopulation.chromosomes)
      ensures r == None ==>
        && |newPopulation.chromosomes| == |old(newPopulation.chromosomes)| + 1
        && newPopulation.chromosomes[..|old(newPopulation.chromosomes)|] == old(newPopulation.chromosomes)
      ensures r == None ==>
        var c := newPopulation.chromosomes[|old(newPopulation.chromosomes)|];
        && c.isParent && (c in old(population.chromosomes) || (fresh(c) && fresh(c.genes)))
        && ParentOf(c, chosen.value)
      ensures forall k :: 0 <= k < |old(newPopulation.chromosomes)| && old(newPopulation.chromosomes[k].isParent) ==>
        newPopulation.chromosomes[k].isParent
    {
      StateApart(op, newPopulation, newPopulation.chromosomes, {});
      var selected;
      selected, chosen := Pick(op, population, d, kind, length);
      r := Deliver(op, selected, chosen, newPopulation, kind, length, population.chromosomes);
    }

    /** The end of one selection: a thrown exception or a null result is
      * reported, a chromosome is adopted as a parent. */
    static method Deliver(op: SelectionOperator, selected: Outcome<Chromosome?>, chosen: Option<Chromosome>,
                          newPopulation: Population, kind: Kind, length: int, members: seq<Chromosome>)
      returns (r: Option<Exception>)
      requires Delivers(chosen, selected) && Shapes(newPopulation.chromosomes, kind, length)
      requires selected.Ok? && selected.value != null ==> Shaped(selected.value, kind, length)
      requires SelectionValid(op) && Shapes(members, kind, length)
      modifies newPopulation, if selected.Ok? && selected.value != null then {selected.value} else {}
      ensures SelectionValid(op) && Shapes(members, kind, length)
      ensures r == None <==> chosen.Some?
      ensures r.Some? ==> newPopulation.chromosomes == old(newPopulation.chromosomes)
      ensures r == None ==>
        && newPopulation.chromosomes == old(newPopulation.chromosomes) + [selected.value]
        && selected.value.isParent && ParentOf(selected.value, chosen.value)
      ensures Fitnesses(members) == old(Fitnesses(members))
      ensures Shapes(newPopulation.chromosomes, kind, length)
      ensures forall k :: 0 <= k < |old(newPopulation.chromosomes)| && old(newPopulation.chromosomes[k].isParent) ==>
        newPopulation.chromosomes[k].isParent
    {
      if selected.Thrown? {
        return Some(selected.exception);
      }
      if selected.value == null {
        return Some(NullPointer(""));
      }
      Adopt(selected.value, chosen.value, newPopulation, kind, length, members);
      r := None;
    }

    /** One call of the selection operator, with the member its strategy
      * chose. */
    static method Pick(op: SelectionOperator, population: Population, d: SelectionDraw, kind: Kind, length: int)
      returns (r: Outcome<Chromosome?>, chosen: Option<Chromosome>)
      requires SelectionValid(op) && SelectionDrawFits(op, |population.chromosomes|, d)
      requires Shapes(population.chromosomes, kind, length)
      modifies population, SelectionState(op)
      ensures SelectionValid(op)
      ensures multiset(population.chromosomes) == multiset(old(population.chromosomes))
      ensures Shapes(population.chromosomes, kind, length)
      ensures Delivers(chosen, r) && (chosen.Some? ==> chosen.value in population.chromosomes)
      ensures chosen == Chosen(op, old(CursorOf(op)), population.chromosomes, Fitnesses(population.chromosomes), population.generation, d)
      ensures r.Ok? && r.value != null ==>
        && Shaped(r.value, kind, length)
        && (r.value in old(population.chromosomes) || (fresh(r.value) && fresh(r.value.genes)))
    {
      var cur := CursorOf(op);
      ShapesAreAllShaped(population.chromosomes, kind, length);
      r := Select(op, population, d, kind, length);
      ShapesAreAllShaped(population.chromosomes, kind, length);
      var o := population.chromosomes;
      ChosenIsMember(op, cur, o, Fitnesses(o), population.generation, d);
      chosen := Chosen(op, cur, o, Fitnesses(o), population.generation, d);
    }

    /** Marks a selected chromosome, the strategy's choice `member` or a
      * copy of it, as a parent and appends it to the new population; the
      * fitness values of `members` stay as they were. */
    static method Adopt(chosen: Chromosome, member: Chromosome, newPopulation: Population, kind: Kind, length: int,
                        members: seq<Chromosome>)
      requires Shaped(chosen, kind, length) && Shapes(newPopulation.chromosomes, kind, length)
      requires chosen == member || CopyOf(member, chosen)
      modifies chosen, newPopulation
      ensures newPopulation.chromosomes == old(newPopulation.chromosomes) + [chosen] && chosen.isParent
      ensures ParentOf(chosen, member)
      ensures chosen.fitness == old(chosen.fitness)
      ensures Fitnesses(members) == old(Fitnesses(members))
      ensures Shapes(newPopulation.chromosomes, kind, length)
      ensures forall k :: 0 <= k < |old(newPopulation.chromosomes)| && old(newPopulation.chromosomes[k].isParent) ==>
        newPopulation.chromosomes[k].isParent
    {
      ghost var before := newPopulation.chromosomes;
      chosen.SetParent(true);
      newPopulation.AddChromosome(chosen);
      ShapesAppend(before, chosen, kind, length);
    }

    // -------------------------------------------------------------------
    // Crossover

    /** One offspring for each place of `population` after the first
      * `parentCount`, bred from two members of `newPopulation` as it is at
      * that moment; drawing from an empty `newPopulation` fails, as does a
      * failing operator. */
    method Crossover(population: Population, newPopulation: Population, parentCount: int, matings: seq<Mating>)
      returns (r: Option<Exception>)
      requires crossoverOperatorPR.Some? && population != newPopulation
      requires |matings| == Iterations(|population.chromosomes| - parentCount)
      requires MatingsFit(crossoverOperatorPR.value, crossoverOperatorSC, config.secondOperatorRate,
                          |newPopulation.chromosomes|, defChromosome.genes.Length, matings)
      requires Conforming(newPopulation.chromosomes)
      modifies newPopulation
      ensures unchanged(config)
      ensures Conforming(newPopulation.chromosomes)
      ensures |old(newPopulation.chromosomes)| <= |newPopulation.chromosomes| <= |old(newPopulation.chromosomes)| + |matings|
      ensures newPopulation.chromosomes[..|old(newPopulation.chromosomes)|] == old(newPopulation.chromosomes)
      ensures r == None <==> |newPopulation.chromosomes| == |old(newPopulation.chromosomes)| + |matings|
      ensures FreshFrom(newPopulation.chromosomes, |old(newPopulation.chromosomes)|)
      ensures forall k :: |old(newPopulation.chromosomes)| <= k < |newPopulation.chromosomes| ==>
        Bred(newPopulation.chromosomes, k, |old(newPopulation.chromosomes)|, matings,
             crossoverOperatorPR.value, crossoverOperatorSC, config.secondOperatorRate)
      ensures |old(newPopulation.chromosomes)| == 0 && |matings| > 0 ==>
        r == Some(IllegalArgument(BoundMessage))
      ensures r.Some? ==>
        var m := matings[|newPopulation.chromosomes| - |old(newPopulation.chromosomes)|];
        Failed(newPopulation.chromosomes, m, ChosenCrossover(crossoverOperatorPR.value, crossoverOperatorSC,
                                                            config.secondOperatorRate, m.secondary), r.value)
    {
      var primary, secondary, rate := crossoverOperatorPR.value, crossoverOperatorSC, config.secondOperatorRate;
      var base := |newPopulation.chromosomes|;
      var j := parentCount;
      while j < |population.chromosomes|
        invariant j >= parentCount
        invariant j - parentCount == |newPopulation.chromosomes| - base <= |matings|
        invariant j < |population.chromosomes| ==> j - parentCount < |matings|
        invariant Conforming(newPopulation.chromosomes)
        invariant newPopulation.chromosomes[..base] == old(newPopulation.chromosomes)
        invariant base == 0 ==> |newPopulation.chromosomes| == 0
        invariant FreshFrom(newPopulation.chromosomes, base)
        invariant forall k :: base <= k < |newPopulation.chromosomes| ==>
          Bred(newPopulation.chromosomes, k, base, matings, primary, secondary, rate)
      {
        var m := matings[j - parentCount];
        ghost var before := newPopulation.chromosomes;
        var e := BreedInto(newPopulation, m, ChosenCrossover(primary, secondary, rate, m.secondary),
                           base, matings, primary, secondary, rate);
        if e.Some? {
          assert m == matings[|newPopulation.chromosomes| - base];
          return e;
        }
        assert newPopulation.chromosomes[..|before|] == before;
        j := j + 1;
      }
      r := None;
    }

    /** One crossover of two members of `newPopulation`, whose offspring is
      * appended; the offspring appended before it stay offspring. */
    method BreedInto(newPopulation: Population, m: Mating, op: CrossoverOperator, base: int,
                     matings: seq<Mating>, primary: CrossoverOperator,
                     secondary: Option<CrossoverOperator>, rate: real)
      returns (r: Option<Exception>)
      requires var n := |newPopulation.chromosomes|;
        n > 0 ==> 0 <= m.parent1 < n && 0 <= m.parent2 < n
      requires CrossoverDrawFits(op, defChromosome.genes.Length, m.draw)
      requires Conforming(newPopulation.chromosomes)
      requires 0 <= base <= |newPopulation.chromosomes| < base + |matings|
      requires m == matings[|newPopulation.chromosomes| - base]
      requires op == ChosenCrossover(primary, secondary, rate, m.secondary)
      requires forall k :: base <= k < |newPopulation.chromosomes| ==>
        Bred(newPopulation.chromosomes, k, base, matings, primary, secondary, rate)
      modifies newPopulation
      ensures Conforming(newPopulation.chromosomes)
      ensures r.Some? ==> newPopulation.chromosomes == old(newPopulation.chromosomes)
                          && Failed(newPopulation.chromosomes, m, op, r.value)
      ensures r == None ==>
        && 0 < |old(newPopulation.chromosomes)|
        && |newPopulation.chromosomes| == |old(newPopulation.chromosomes)| + 1
        && newPopulation.chromosomes[..|old(newPopulation.chromosomes)|] == old(newPopulation.chromosomes)
        && fresh(newPopulation.chromosomes[|old(newPopulation.chromosomes)|])
        && fresh(newPopulation.chromosomes[|old(newPopulation.chromosomes)|].genes)
        && forall k :: base <= k < |newPopulation.chromosomes| ==>
             Bred(newPopulation.chromosomes, k, base, matings, primary, secondary, rate)
    {
      var s := newPopulation.chromosomes;
      if |s| == 0 {
        return Some(IllegalArgument(BoundMessage));
      }
      var parent1, parent2 := s[m.parent1], s[m.parent2];
      CrossoverOfSetParents(op, defChromosome.kind, parent1.genes[..], parent2.genes[..], m.draw);
      var child := Cross(op, parent1, parent2, m.draw);
      if child.Thrown? {
        return Some(child.exception);
      }
      var t := s + [child.value];
      forall k | base <= k < |s|
        ensures Bred(t, k, base, matings, primary, secondary, rate)
      {
        assert old(Bred(s, k, base, matings, primary, secondary, rate));
        ChildExtends(s, child.value, k, matings[k - base], ChosenCrossover(primary, secondary, rate, matings[k - base].secondary));
      }
      assert t[m.parent1] == parent1 && t[m.parent2] == parent2 && t[|s|] == child.value;
      assert Bred(t, |s|, base, matings, primary, secondary, rate);
      newPopulation.AddChromosome(child.value);
      assert newPopulation.chromosomes == t;
      r := None;
    }

    // -------------------------------------------------------------------
    // Mutation

    /** At most one operator call per member, whose result is dropped;
      * then every non-uniform counter in an operator slot advances once
      * per slot that holds it. A call that throws, or that never
      * returns, ends the pass before the counters advance. */
    method Mutation(newPopulation: Population, calls: seq<MutationCall>) returns (r: Option<Exception>)
      requires mutationOperatorPR.Some? && |calls| == |newPopulation.chromosomes|
      requires CallsFit(mutationOperatorPR.value, mutationOperatorSC, config.secondOperatorRate, config.mutationRate,
                        defChromosome.kind, defChromosome.genes.Length, calls)
      requires Conforming(newPopulation.chromosomes) && forall nu :: nu in Counters() ==> nu.Valid()
      modifies set c | c in newPopulation.chromosomes :: c.genes, Counters()
      ensures unchanged(config)
      ensures Conforming(newPopulation.chromosomes) && forall nu :: nu in Counters() ==> nu.Valid()
      ensures r == None ==> NoneFails(mutationOperatorPR.value, mutationOperatorSC, config.secondOperatorRate,
                                      config.mutationRate, defChromosome.genes.Length, calls, |calls|)
      ensures r.Some? ==> r == Some(IllegalArgument(BoundMessage)) || r == Some(NoReturn)
      ensures r == Some(IllegalArgument(BoundMessage)) ==>
        !NoneFails(mutationOperatorPR.value, mutationOperatorSC, config.secondOperatorRate,
                   config.mutationRate, defChromosome.genes.Length, calls, |calls|)
      ensures r == Some(NoReturn) ==>
        exists k :: 0 <= k < |calls| &&
          MayHang(mutationOperatorPR.value, mutationOperatorSC, config.secondOperatorRate, config.mutationRate,
                  defChromosome.kind, defChromosome.genes.Length, calls[k])
      ensures r == None ==> forall j :: 0 <= j < |newPopulation.chromosomes| && Alone(newPopulation.chromosomes, j) ==>
        var c := newPopulation.chromosomes[j];
        c.genes[..] == MemberMutation(mutationOperatorPR.value, mutationOperatorSC, config.secondOperatorRate,
                                      config.mutationRate, c.kind, old(c.genes[..]), c.fitness, calls[j])
      ensures forall nu :: nu in Counters() ==>
        nu.currentGeneration == if r.Some? then old(nu.currentGeneration) else
          Advanced(old(nu.currentGeneration), nu.maxGenerations, Occurrences(nu, mutationOperatorPR, mutationOperatorSC))
    {
      r := MutateMembers(newPopulation.chromosomes, calls, mutationOperatorPR.value, mutationOperatorSC,
                         config.secondOperatorRate, config.mutationRate, defChromosome.kind, defChromosome.genes.Length);
      if r.Some? {
        return;
      }
      AdvanceCounters();
    }

    /** The calls in member order, up to the first that throws or never
      * returns. */
    static method MutateMembers(s: seq<Chromosome>, calls: seq<MutationCall>, primary: MutationOperator,
                                secondary: Option<MutationOperator>, rate: real, mutationRate: real,
                                kind: Kind, length: int)
      returns (r: Option<Exception>)
      requires |calls| == |s| && Shapes(s, kind, length)
      requires CallsFit(primary, secondary, rate, mutationRate, kind, length, calls)
      modifies set c | c in s :: c.genes
      ensures Shapes(s, kind, length)
      ensures r == None ==> NoneFails(primary, secondary, rate, mutationRate, length, calls, |calls|)
      ensures r.Some? ==> r == Some(IllegalArgument(BoundMessage)) || r == Some(NoReturn)
      ensures r == Some(IllegalArgument(BoundMessage)) ==>
        !NoneFails(primary, secondary, rate, mutationRate, length, calls, |calls|)
      ensures r == Some(NoReturn) ==>
        exists k :: 0 <= k < |calls| && MayHang(primary, secondary, rate, mutationRate, kind, length, calls[k])
      ensures r == None ==> forall j :: 0 <= j < |s| && Alone(s, j) ==>
        s[j].genes[..] == MemberMutation(primary, secondary, rate, mutationRate, kind, old(s[j].genes[..]), s[j].fitness, calls[j])
    {
      r := None;
      ghost var before := seq(|s|, k requires 0 <= k < |s| reads set c | c in s :: c.genes => s[k].genes[..]);
      for j := 0 to |s|
        invariant Shapes(s, kind, length)
        invariant MutatedUpTo(s, before, j, primary, secondary, rate, mutationRate, kind, length, calls)
        invariant r == None && NoneFails(primary, secondary, rate, mutationRate, length, calls, j)
      {
        r := MutateStep(s, j, primary, secondary, rate, mutationRate, calls, kind, length, before);
        if r.Some? {
          break;
        }
        NoneFailsExtends(primary, secondary, rate, mutationRate, length, calls, j);
      }
    }

    /** The step of the mutation pass for member `j`: the operator chosen
      * by `call` mutates it when the call's draw is at most the mutation
      * rate; only its gene array changes, the step throws exactly when
      * that operator draws a position among no genes, and it never returns
      * exactly when that operator mutates a stuck gene. */
    static method MutateOne(s: seq<Chromosome>, j: nat, primary: MutationOperator, secondary: Option<MutationOperator>,
                            rate: real, mutationRate: real, call: MutationCall, kind: Kind, length: int)
      returns (r: Option<Exception>)
      requires j < |s| && Shapes(s, kind, length)
      requires call.mutate <= mutationRate ==>
        MutationDrawFits(ChosenMutation(primary, secondary, rate, call.secondary), kind, length, call.draw)
      modifies s[j].genes
      ensures Shapes(s, kind, length)
      ensures s[j].genes[..] == MemberMutation(primary, secondary, rate, mutationRate, kind, old(s[j].genes[..]), s[j].fitness, call)
      ensures r == Some(IllegalArgument(BoundMessage)) <==> MutationFails(primary, secondary, rate, mutationRate, length, call)
      ensures r == Some(NoReturn) <==> old(call.mutate <= mutationRate &&
        MutationHangs(ChosenMutation(primary, secondary, rate, call.secondary), kind, s[j].genes[..], s[j].fitness, call.draw))
      ensures r.Some? ==> r == Some(IllegalArgument(BoundMessage)) || r == Some(NoReturn)
      ensures r == Some(NoReturn) ==> MayHang(primary, secondary, rate, mutationRate, kind, length, call)
    {
      if call.mutate > mutationRate {
        return None;
      }
      var c := s[j];
      var o := Mutate(ChosenMutation(primary, secondary, rate, call.secondary), c, call.draw);
      r := if o.Thrown? then Some(o.exception) else None;
      forall k | 0 <= k < |s|
        ensures Shaped(s[k], kind, length)
      {
        if s[k].genes == c.genes {
          assert s[k].genes[..] == c.genes[..];
        }
      }
    }

    /** The step of the mutation pass for member `j`, as `MutateOne`
      * describes it, stated as the progress of the pass. */
    static method MutateStep(s: seq<Chromosome>, j: nat, primary: MutationOperator, secondary: Option<MutationOperator>,
                             rate: real, mutationRate: real, calls: seq<MutationCall>, kind: Kind, length: int,
                             ghost before: seq<seq<Gene>>)
      returns (r: Option<Exception>)
      requires j < |s| && Shapes(s, kind, length)
      requires MutatedUpTo(s, before, j, primary, secondary, rate, mutationRate, kind, length, calls)
      modifies s[j].genes
      ensures Shapes(s, kind, length)
      ensures r == None ==> MutatedUpTo(s, before, j + 1, primary, secondary, rate, mutationRate, kind, length, calls)
      ensures r == Some(IllegalArgument(BoundMessage)) <==> MutationFails(primary, secondary, rate, mutationRate, length, calls[j])
      ensures r.Some? ==> r == Some(IllegalArgument(BoundMessage)) || r == Some(NoReturn)
      ensures r == Some(NoReturn) ==> MayHang(primary, secondary, rate, mutationRate, kind, length, calls[j])
    {
      r := MutateOne(s, j, primary, secondary, rate, mutationRate, calls[j], kind, length);
      forall k | 0 <= k < |s| && Alone(s, k)
        ensures s[k].genes[..] == if k < j + 1 then MemberMutation(primary, secondary, rate, mutationRate, kind, before[k], s[k].fitness, calls[k])
                                  else before[k]
      {
        if k != j {
          assert s[k].genes != s[j].genes;
          assert s[k].genes[..] == old(s[k].genes[..]);
        }
      }
    }

    /** `nextGeneration` on the primary, then on the secondary mutation, for each that is non-uniform. */
    method AdvanceCounters()
      requires forall nu :: nu in Counters() ==> nu.Valid()
      modifies Counters()
      ensures forall nu :: nu in Counters() ==> nu.Valid()
      ensures forall nu :: nu in Counters() ==>
        nu.currentGeneration == Advanced(old(nu.currentGeneration), nu.maxGenerations,
                                         Occurrences(nu, mutationOperatorPR, mutationOperatorSC))
    {
      if mutationOperatorPR.Some? && mutationOperatorPR.value.NonUniformMutation? {
        mutationOperatorPR.value.nonUniform.NextGeneration();
      }
      if mutationOperatorSC.Some? && mutationOperatorSC.value.NonUniformMutation? {
        mutationOperatorSC.value.nonUniform.NextGeneration();
      }
      forall nu | nu in Counters()
        ensures nu.currentGeneration == Advanced(old(nu.currentGeneration), nu.maxGenerations,
                                                 Occurrences(nu, mutationOperatorPR, mutationOperatorSC))
      {
        var c, m := old(nu.currentGeneration), nu.maxGenerations;
        assert Advanced(c, m, 1) == NextGenerationOf(c, m);
        assert Advanced(c, m, 2) == NextGenerationOf(NextGenerationOf(c, m), m);
      }
    }
      // -------------------------------------------------------------------
    // One generation

    /** The body of one generation after the end check: the successor of
      * generation `i + 1` gets the selected parents, the selection operator
      * is reset, the offspring are bred and mutated and every parent flag
      * is cleared. A step that throws ends the generation with its
      * exception; with no parent selected from a non-empty population the
      * first crossover has nothing to draw from and throws. */
    method Breed(i: int, round: Round) returns (r: Outcome<Population>)
      requires Operational() && OperatorsValid() && Conforming(population.chromosomes)
      requires RoundFits(Operators(), config.Snapshot(), defChromosome.kind, defChromosome.genes.Length,
                         |population.chromosomes|, round)
      modifies population, set c | c in population.chromosomes, set c | c in population.chromosomes :: c.genes
      modifies SelectionFrame(), Counters()
      ensures unchanged(config)
      ensures OperatorsValid()
      ensures var size := |old(population.chromosomes)|;
        size > 0 && ParentCount(size, config.selectionRate) <= 0 ==>
        r == Thrown(IllegalArgument(BoundMessage))
      ensures r.Ok? ==>
        var next := r.value;
        var size := |old(population.chromosomes)|;
        && fresh(next) && next.generation == i + 1
        && |next.chromosomes| == NextSize(size, ParentCount(size, config.selectionRate))
        && Conforming(next.chromosomes)
        && (forall k :: 0 <= k < |next.chromosomes| ==> !next.chromosomes[k].isParent)
        && KeptOrFresh(next.chromosomes, 0, old(population.chromosomes))
        && Cleared(selectionOperator.value)
    {
      ghost var members := population.chromosomes;
      var parentCount := ParentCount(|population.chromosomes|, config.selectionRate);
      assert RoundFits(Operators(), config.Snapshot(), defChromosome.kind, defChromosome.genes.Length,
                       |members|, round);
      assert |members| > 0 && parentCount <= 0 ==> Iterations(parentCount) == 0 && |round.matings| > 0;
      var newPopulation := new Population.OfGeneration(i + 1);
      var e := Parents(newPopulation, parentCount, round.selections);
      if e.Some? {
        return Thrown(e.value);
      }
      ghost var parents := newPopulation.chromosomes;
      assert KeptOrFresh(parents, 0, members);
      StateApart(selectionOperator.value, newPopulation, parents, Counters());
      e := Offspring(population, newPopulation, parentCount, round);
      if e.Some? {
        return Thrown(e.value);
      }
      KeptOrFreshAppend(newPopulation.chromosomes, parents, members);
      r := Ok(newPopulation);
    }

    /** The selection step of a generation, then the reset of the
      * selection operator. */
    method Parents(newPopulation: Population, parentCount: int, draws: seq<SelectionDraw>)
      returns (r: Option<Exception>)
      requires Operational() && OperatorsValid() && population != newPopulation
      requires Conforming(population.chromosomes) && newPopulation.chromosomes == []
      requires |draws| == Iterations(parentCount)
      requires forall k :: 0 <= k < |draws| ==> SelectionDrawFits(selectionOperator.value, |population.chromosomes|, draws[k])
      modifies population, newPopulation, SelectionFrame(), set c | c in population.chromosomes
      ensures OperatorsValid() && unchanged(config) && |population.chromosomes| == |old(population.chromosomes)|
      ensures Conforming(newPopulation.chromosomes)
      ensures |newPopulation.chromosomes| <= Iterations(parentCount)
      ensures r == None <==> |newPopulation.chromosomes| == Iterations(parentCount)
      ensures r == None ==> Cleared(selectionOperator.value)
      ensures KeptOrFresh(newPopulation.chromosomes, 0, old(population.chromosomes))
    {
      forall nu | nu in Counters()
        ensures nu !in SelectionState(selectionOperator.value)
      {
      }
      r := Selection(population, newPopulation, parentCount, draws);
      assert |population.chromosomes| == |multiset(population.chromosomes)| == |old(population.chromosomes)|;
      if r.Some? {
        return;
      }
      ghost var state := SelectionState(selectionOperator.value);
      assert config !in state && population !in state && newPopulation !in state;
      forall c | c in newPopulation.chromosomes
        ensures c.genes !in state
      {
      }
      Reset(selectionOperator.value);
    }

    /** The part of a generation after selection: crossover, mutation and
      * the clearing of the parent flags in the successor. */
    method Offspring(population: Population, newPopulation: Population, parentCount: int, round: Round)
      returns (r: Option<Exception>)
      requires Operational() && population != newPopulation && Conforming(newPopulation.chromosomes)
      requires OperatorsValid()
      requires |newPopulation.chromosomes| == Iterations(parentCount)
      requires |round.matings| == Iterations(|population.chromosomes| - parentCount)
      requires MatingsFit(crossoverOperatorPR.value, crossoverOperatorSC, config.secondOperatorRate,
                          Iterations(parentCount), defChromosome.genes.Length, round.matings)
      requires |round.mutations| == NextSize(|population.chromosomes|, parentCount)
      requires CallsFit(mutationOperatorPR.value, mutationOperatorSC, config.secondOperatorRate, config.mutationRate,
                        defChromosome.kind, defChromosome.genes.Length, round.mutations)
      modifies newPopulation, set c | c in newPopulation.chromosomes, set c | c in newPopulation.chromosomes :: c.genes
      modifies Counters()
      ensures unchanged(config)
      ensures OperatorsValid() && unchanged(population)
      ensures Iterations(parentCount) == 0 && |round.matings| > 0 ==> r == Some(IllegalArgument(BoundMessage))
      ensures r == None ==>
        && |newPopulation.chromosomes| == NextSize(|population.chromosomes|, parentCount)
        && Conforming(newPopulation.chromosomes)
        && newPopulation.chromosomes[..|old(newPopulation.chromosomes)|] == old(newPopulation.chromosomes)
        && (forall k :: 0 <= k < |newPopulation.chromosomes| ==> !newPopulation.chromosomes[k].isParent)
        && FreshFrom(newPopulation.chromosomes, |old(newPopulation.chromosomes)|)
    {
      r := Crossover(population, newPopulation, parentCount, round.matings);
      if r.Some? {
        return;
      }
      r := MutateAndClear(newPopulation, round.mutations);
    }

    /** The end of breeding: mutation, then no member is a parent any
      * more; a mutation that throws leaves the flags as they are. */
    method MutateAndClear(newPopulation: Population, calls: seq<MutationCall>) returns (r: Option<Exception>)
      requires mutationOperatorPR.Some? && |calls| == |newPopulation.chromosomes|
      requires CallsFit(mutationOperatorPR.value, mutationOperatorSC, config.secondOperatorRate, config.mutationRate,
                        defChromosome.kind, defChromosome.genes.Length, calls)
      requires Conforming(newPopulation.chromosomes) && OperatorsValid()
      modifies set c | c in newPopulation.chromosomes, set c | c in newPopulation.chromosomes :: c.genes
      modifies Counters()
      ensures unchanged(config) && unchanged(newPopulation)
      ensures Conforming(newPopulation.chromosomes) && OperatorsValid()
      ensures r == None ==> NoneFails(mutationOperatorPR.value, mutationOperatorSC, config.secondOperatorRate,
                                      config.mutationRate, defChromosome.genes.Length, calls, |calls|)
      ensures r.Some? ==> r == Some(IllegalArgument(BoundMessage)) || r == Some(NoReturn)
      ensures r == Some(IllegalArgument(BoundMessage)) ==>
        !NoneFails(mutationOperatorPR.value, mutationOperatorSC, config.secondOperatorRate,
                   config.mutationRate, defChromosome.genes.Length, calls, |calls|)
      ensures r == Some(NoReturn) ==>
        exists k :: 0 <= k < |calls| &&
          MayHang(mutationOperatorPR.value, mutationOperatorSC, config.secondOperatorRate, config.mutationRate,
                  defChromosome.kind, defChromosome.genes.Length, calls[k])
      ensures r == None ==> forall k :: 0 <= k < |newPopulation.chromosomes| ==> !newPopulation.chromosomes[k].isParent
    {
      if selectionOperator.Some? {
        StateApart(selectionOperator.value, newPopulation, newPopulation.chromosomes, Counters());
      }
      r := Mutation(newPopulation, calls);
      if r.Some? {
        return;
      }
      newPopulation.SetParents();
    }
      // -------------------------------------------------------------------
    // The run

    /** The population's size once `run` has initialised it from `initDraws`. */
    function StartSize(initDraws: seq<seq<int>>): int
      reads this, population
    {
      |population.chromosomes| + if ready then 0 else |initDraws|
    }

    /** `run`: initialise the population unless that was done, check the
      * primary operators, then for at most `generations` generations
      * evaluate, record, stop when the best fitness reaches the target
      * band, breed the successor and stop when it holds one chromosome
      * twice; finally evaluate once more. The draws of generation `k` are
      * `rounds[k]`. */
    method Run(initDraws: seq<seq<int>>, rounds: seq<Round>) returns (r: Option<Exception>)
      requires OperatorsValid() && Conforming(population.chromosomes)
      requires !ready ==> InitDrawsFit(initDraws)
      requires |rounds| == Iterations(config.generations)
      requires Operational() ==> forall k :: 0 <= k < |rounds| ==>
        RoundFits(Operators(), config.Snapshot().(secondOperatorRate := CheckedRate()), defChromosome.kind,
                  defChromosome.genes.Length, SizeAt(StartSize(initDraws), config.selectionRate, k), rounds[k])
      modifies this, population, config, set c | c in population.chromosomes, set c | c in population.chromosomes :: c.genes
      modifies SelectionFrame(), Counters()
      ensures ready && Operators() == old(Operators()) && OperatorsValid()
      ensures config.Snapshot() == old(config.Snapshot()).(secondOperatorRate := old(CheckedRate()))
      ensures !old(Operational()) ==>
        r == OperatorFailure(mutationOperatorPR.Some?, crossoverOperatorPR.Some?, selectionOperator.Some?)
      ensures |old(generations)| <= |generations| <= |old(generations)| + |rounds|
      ensures generations[..|old(generations)|] == old(generations)
      ensures r == None ==>
        && Conforming(population.chromosomes)
        && (forall k :: 0 <= k < |population.chromosomes| ==>
              population.chromosomes[k].fitness == fitness(population.chromosomes[k].genes[..]))
        && (exists n :: 0 <= n <= |rounds| &&
              |population.chromosomes| == SizeAt(old(StartSize(initDraws)), config.selectionRate, n))
        && (population != old(population) ==> NoParents(population.chromosomes))
        && Finished(|generations| - |old(generations)|, |rounds|, population.chromosomes)
    {
      var size0 := StartSize(initDraws);
      r := Prepare(initDraws);
      if r.Some? {
        return;
      }
      r := Evolve(rounds, size0);
    }

    /** The start of `run`: the initialisation if the engine is not ready
      * yet, then `checkOperators`. */
    method Prepare(initDraws: seq<seq<int>>) returns (r: Option<Exception>)
      requires OperatorsValid() && Conforming(population.chromosomes)
      requires !ready ==> InitDrawsFit(initDraws)
      modifies this, population, config
      ensures ready && Operators() == old(Operators()) && OperatorsValid() && generations == old(generations)
      ensures population == old(population) && Conforming(population.chromosomes)
      ensures |population.chromosomes| == old(StartSize(initDraws))
      ensures KeptOrFresh(population.chromosomes, 0, old(population.chromosomes))
      ensures config.Snapshot() == old(config.Snapshot()).(secondOperatorRate := old(CheckedRate()))
      ensures r == OperatorFailure(mutationOperatorPR.Some?, crossoverOperatorPR.Some?, selectionOperator.Some?)
    {
      if !ready {
        InitializePopulation(initDraws);
        forall k | 0 <= k < |population.chromosomes|
          ensures Shaped(population.chromosomes[k], defChromosome.kind, defChromosome.genes.Length)
        {
          if k < |old(population.chromosomes)| {
            assert population.chromosomes[k] == old(population.chromosomes)[k];
          }
        }
      }
      r := CheckOperators(config, mutationOperatorPR.Some?, crossoverOperatorPR.Some?, selectionOperator.Some?,
                                  crossoverOperatorSC.Some?, mutationOperatorSC.Some?);
    }

    /** The loop of `run` and the evaluation after it, from a population of
      * `size0` members whose operators have passed the check. */
    method Evolve(rounds: seq<Round>, size0: int) returns (r: Option<Exception>)
      requires ready && Operational() && OperatorsValid() && Conforming(population.chromosomes)
      requires |population.chromosomes| == size0 && |rounds| == Iterations(config.generations)
      requires forall k :: 0 <= k < |rounds| ==>
        RoundFits(Operators(), config.Snapshot(), defChromosome.kind, defChromosome.genes.Length,
                  SizeAt(size0, config.selectionRate, k), rounds[k])
      modifies this, population, set c | c in population.chromosomes, set c | c in population.chromosomes :: c.genes
      modifies SelectionFrame(), Counters()
      ensures ready && Operators() == old(Operators()) && OperatorsValid()
      ensures |old(generations)| <= |generations| <= |old(generations)| + |rounds|
      ensures generations[..|old(generations)|] == old(generations)
      ensures r == None ==>
        && Conforming(population.chromosomes)
        && (forall k :: 0 <= k < |population.chromosomes| ==>
              population.chromosomes[k].fitness == fitness(population.chromosomes[k].genes[..]))
        && (exists n :: 0 <= n <= |rounds| && |population.chromosomes| == SizeAt(size0, config.selectionRate, n))
        && (population != old(population) ==> NoParents(population.chromosomes))
        && Finished(|generations| - |old(generations)|, |rounds|, population.chromosomes)
    {
      var n;
      r, n := Passes(rounds, size0);
      if r.Some? {
        return;
      }
      EvaluateMembers();
    }

    /** The loop of `run`: one pass per generation until a pass stops it,
      * a pass throws or the generations run out. */
    method Passes(rounds: seq<Round>, size0: int) returns (r: Option<Exception>, n: int)
      requires ready && Operational() && OperatorsValid() && Conforming(population.chromosomes)
      requires |population.chromosomes| == size0 && |rounds| == Iterations(config.generations)
      requires forall k :: 0 <= k < |rounds| ==>
        RoundFits(Operators(), config.Snapshot(), defChromosome.kind, defChromosome.genes.Length,
                  SizeAt(size0, config.selectionRate, k), rounds[k])
      modifies this, population, set c | c in population.chromosomes, set c | c in population.chromosomes :: c.genes
      modifies SelectionFrame(), Counters()
      ensures ready && Operators() == old(Operators()) && OperatorsValid()
      ensures |old(generations)| <= |generations| <= |old(generations)| + |rounds|
      ensures generations[..|old(generations)|] == old(generations)
      ensures r == None ==>
        && Conforming(population.chromosomes)
        && 0 <= n <= |rounds| && |population.chromosomes| == SizeAt(size0, config.selectionRate, n)
        && (population != old(population) ==> NoParents(population.chromosomes))
        && KeptOrFresh(population.chromosomes, 0, old(population.chromosomes))
        && Finished(|generations| - |old(generations)|, |rounds|, population.chromosomes)
    {
      n := 0;
      ghost var ops, values := Operators(), config.Snapshot();
      var i := 0;
      while i < config.generations
        invariant 0 <= i <= |rounds| && n == i
        invariant ready && Operators() == ops && OperatorsValid() && config.Snapshot() == values
        invariant Conforming(population.chromosomes)
        invariant |population.chromosomes| == SizeAt(size0, values.selectionRate, i)
        invariant |generations| == |old(generations)| + i && generations[..|old(generations)|] == old(generations)
        invariant population == old(population) || fresh(population)
        invariant population != old(population) ==> NoParents(population.chromosomes)
        invariant KeptOrFresh(population.chromosomes, 0, old(population.chromosomes))
      {
        var previous := population;
        assert RoundFits(ops, values, defChromosome.kind, defChromosome.genes.Length,
                         SizeAt(size0, values.selectionRate, i), rounds[i]);
        var e, stop := Generation(i, rounds[i]);
        assert config.Snapshot() == values && Operators() == ops && ready;
        if e.Some? {
          r := e;
          return;
        }
        if population != previous {
          n := i + 1;
          assert |population.chromosomes| == SizeAt(size0, values.selectionRate, n);
        }
        if stop {
          assert Finished(i + 1, |rounds|, population.chromosomes);
          break;
        }
        i := i + 1;
      }
      r := None;
    }

    /** `calculateFitSeq` on the population: every member's fitness is
      * the fitness function of its genes; nothing else changes. */
    method EvaluateMembers()
      requires OperatorsValid() && Conforming(population.chromosomes)
      modifies set c | c in population.chromosomes
      ensures OperatorsValid() && Conforming(population.chromosomes)
      ensures forall k :: 0 <= k < |population.chromosomes| ==>
        population.chromosomes[k].fitness == fitness(population.chromosomes[k].genes[..])
      ensures unchanged(this) && NoParents(population.chromosomes) == old(NoParents(population.chromosomes))
    {
      population.CalculateFitSeq(fitness);
    }

    /** One pass of the loop of `run`: evaluate, run the end check and
      * record the population as it stands after it; unless the end
      * condition holds, breed the successor, which replaces the population,
      * and stop when it holds one chromosome twice. */
    method Generation(i: int, round: Round) returns (r: Option<Exception>, stop: bool)
      requires Operational() && OperatorsValid() && Conforming(population.chromosomes)
      requires RoundFits(Operators(), config.Snapshot(), defChromosome.kind, defChromosome.genes.Length,
                         |population.chromosomes|, round)
      modifies this, population, set c | c in population.chromosomes, set c | c in population.chromosomes :: c.genes
      modifies SelectionFrame(), Counters()
      ensures unchanged(config)
      ensures Operators() == old(Operators()) && OperatorsValid() && ready == old(ready)
      ensures r == None ==> Conforming(population.chromosomes)
      ensures |generations| == |old(generations)| + 1 && generations[..|old(generations)|] == old(generations)
      ensures multiset(generations[|old(generations)|]) == multiset(old(population.chromosomes))
      ensures r.Some? ==> stop
      ensures r == None && population == old(population) ==>
        NoParents(population.chromosomes) == old(NoParents(population.chromosomes))
      ensures r == None && population == old(population) ==>
        stop && |population.chromosomes| == |old(population.chromosomes)| > 0 &&
        WithinTarget(config.approximateFinalFit, config.delta, population.chromosomes[0].fitness) &&
        population.chromosomes[0].fitness == fitness(population.chromosomes[0].genes[..])
      ensures population != old(population) ==>
        && fresh(population) && r == None && (stop <==> HasRepeat(population.chromosomes))
        && |population.chromosomes| == NextSize(|old(population.chromosomes)|,
                                               ParentCount(|old(population.chromosomes)|, config.selectionRate))
        && forall k :: 0 <= k < |population.chromosomes| ==> !population.chromosomes[k].isParent
      ensures r == None ==> KeptOrFresh(population.chromosomes, 0, old(population.chromosomes))
    {
      var end := Evaluate();
      if end.Thrown? {
        return Some(end.exception), true;
      }
      if end.value {
        return None, true;
      }
      r, stop := Advance(i, round);
    }

    /** The second half of a pass: the successor replaces the population
      * and the pass stops when it holds one chromosome twice. */
    method Advance(i: int, round: Round) returns (r: Option<Exception>, stop: bool)
      requires Operational() && OperatorsValid() && Conforming(population.chromosomes)
      requires RoundFits(Operators(), config.Snapshot(), defChromosome.kind, defChromosome.genes.Length,
                         |population.chromosomes|, round)
      modifies this, population, set c | c in population.chromosomes, set c | c in population.chromosomes :: c.genes
      modifies SelectionFrame(), Counters()
      ensures unchanged(config)
      ensures Operators() == old(Operators()) && OperatorsValid() && ready == old(ready) && generations == old(generations)
      ensures r.Some? ==> stop
      ensures r == None ==>
        && fresh(population) && Conforming(population.chromosomes)
        && (stop <==> HasRepeat(population.chromosomes))
        && |population.chromosomes| == NextSize(|old(population.chromosomes)|,
                                               ParentCount(|old(population.chromosomes)|, config.selectionRate))
        && (forall k :: 0 <= k < |population.chromosomes| ==> !population.chromosomes[k].isParent)
        && KeptOrFresh(population.chromosomes, 0, old(population.chromosomes))
      ensures r.Some? ==> population == old(population)
    {
      var next := Breed(i, round);
      if next.Thrown? {
        return Some(next.exception), true;
      }
      population := next.value;
      stop := population.IsSameInstance();
      r := None;
    }

    /** The first half of a pass: evaluate every member, run the end check,
      * which sorts the population, and record the population. */
    method Evaluate() returns (r: Outcome<bool>)
      requires OperatorsValid() && Conforming(population.chromosomes)
      modifies this, population, set c | c in population.chromosomes
      ensures Operators() == old(Operators()) && ready == old(ready) && population == old(population)
      ensures OperatorsValid() && Conforming(population.chromosomes)
      ensures unchanged(config) && |population.chromosomes| == |old(population.chromosomes)|
      ensures multiset(population.chromosomes) == multiset(old(population.chromosomes))
      ensures forall c :: c in population.chromosomes <==> c in old(population.chromosomes)
      ensures generations == old(generations) + [population.chromosomes]
      ensures NoParents(population.chromosomes) == old(NoParents(population.chromosomes))
      ensures |population.chromosomes| == 0 ==> r == Thrown(IndexOutOfBounds)
      ensures |population.chromosomes| > 0 ==>
        r == Ok(WithinTarget(config.approximateFinalFit, config.delta, population.chromosomes[0].fitness))
      ensures forall k :: 0 <= k < |population.chromosomes| ==>
        population.chromosomes[k].fitness == fitness(population.chromosomes[k].genes[..])
    {
      r := EndCheck();
      generations := generations + [population.chromosomes];
    }

    /** Every member evaluated, then the end check. */
    method EndCheck() returns (r: Outcome<bool>)
      requires OperatorsValid() && Conforming(population.chromosomes)
      modifies population, set c | c in population.chromosomes
      ensures OperatorsValid() && Conforming(population.chromosomes)
      ensures |population.chromosomes| == |old(population.chromosomes)|
      ensures multiset(population.chromosomes) == multiset(old(population.chromosomes))
      ensures forall c :: c in population.chromosomes <==> c in old(population.chromosomes)
      ensures NoParents(population.chromosomes) == old(NoParents(population.chromosomes))
      ensures |population.chromosomes| == 0 ==> r == Thrown(IndexOutOfBounds)
      ensures |population.chromosomes| > 0 ==>
        r == Ok(WithinTarget(config.approximateFinalFit, config.delta, population.chromosomes[0].fitness))
      ensures forall k :: 0 <= k < |population.chromosomes| ==>
        population.chromosomes[k].fitness == fitness(population.chromosomes[k].genes[..])
    {
      EvaluateMembers();
      ghost var members := population.chromosomes;
      r := SortedCheck();
      forall k | 0 <= k < |population.chromosomes|
        ensures population.chromosomes[k].fitness == fitness(population.chromosomes[k].genes[..])
      {
        assert population.chromosomes[k] in members;
      }
    }

    /** `checkEndConditions`, with what its sort keeps. */
    method SortedCheck() returns (r: Outcome<bool>)
      requires OperatorsValid() && Conforming(population.chromosomes)
      modifies population
      ensures OperatorsValid() && Conforming(population.chromosomes)
      ensures |population.chromosomes| == |old(population.chromosomes)|
      ensures multiset(population.chromosomes) == multiset(old(population.chromosomes))
      ensures forall c :: c in population.chromosomes <==> c in old(population.chromosomes)
      ensures NoParents(population.chromosomes) == old(NoParents(population.chromosomes))
      ensures |population.chromosomes| == 0 ==> r == Thrown(IndexOutOfBounds)
      ensures |population.chromosomes| > 0 ==>
        r == Ok(WithinTarget(config.approximateFinalFit, config.delta, population.chromosomes[0].fitness))
    {
      ghost var members := population.chromosomes;
      r := CheckEndConditions();
      assert OperatorsValid();
      SortPermutes(members);
      SameElements(population.chromosomes, members);
      NoParentsOfSameElements(members, population.chromosomes);
      ShapesOfSameElements(members, population.chromosomes, defChromosome.kind, defChromosome.genes.Length);
    }
  }

  /** `new Engine(config, population, fitness, defChromosome)`: a missing
    * part throws before anything is set; otherwise the configuration is
    * repaired by `checkConfig` and the engine holds the four parts and no
    * operator. */
  method NewEngine(config: Config?, population: Population?, fitness: Option<seq<Gene> -> real>,
                   defChromosome: Chromosome?)
    returns (r: Outcome<Engine>)
    modifies config
    ensures CheckEngine(population, defChromosome, fitness, config).Some? ==>
      r == Thrown(CheckEngine(population, defChromosome, fitness, config).value) && (config != null ==> unchanged(config))
    ensures CheckEngine(population, defChromosome, fitness, config) == None ==>
      && r.Ok? && fresh(r.value)
      && r.value.config == config && r.value.population == population
      && r.value.fitness == fitness.value && r.value.defChromosome == defChromosome
      && r.value.Operators() == Setup(None, None, None, None, None)
      && r.value.generations == [] && !r.value.ready
      && config.Snapshot() == CheckedValues(old(config.Snapshot()))
  {
    var failure := CheckEngine(population, defChromosome, fitness, config);
    if failure.Some? {
      return Thrown(failure.value);
    }
    var engine := new Engine(config, population, fitness.value, defChromosome);
    CheckConfig(config);
    r := Ok(engine);
  }
}
