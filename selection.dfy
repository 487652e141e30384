/**
 * Selection strategies. Each one picks a member of a population; all but
 * elite selection pass the pick through a guard that hands out a copy
 * instead of a chromosome object it has already handed out since its last
 * reset.
 */
module Selection {
  import opened Common
  import opened Chromosomes
  import opened Populations
  import opened Configs

  /** What a guard has recorded: the objects handed out unchanged, every
    * object handed out in order, and the copies made. */
  datatype GuardRecord = GuardRecord(returned: set<Chromosome?>, handedOut: seq<Chromosome>, clones: set<Chromosome>)

  /** No object was handed out twice, and each one handed out is either
    * recorded as returned or is one of the copies. */
  ghost predicate WellFormed(g: GuardRecord)
  {
    && (forall i, j :: 0 <= i < j < |g.handedOut| ==> g.handedOut[i] != g.handedOut[j])
    && (forall c :: c in g.handedOut ==> c in g.returned || c in g.clones)
  }

  /** The de-duplication guard every selection strategy carries. */
  class ReturnGuard {
    /** The chromosome objects handed out unchanged since the last reset;
      * null once a tournament with no contestants handed it out. */
    var returned: set<Chromosome?>
    /** Every object handed out since the last reset, in order. */
    ghost var handedOut: seq<Chromosome>
    /** The copies made since the last reset. */
    ghost var clones: set<Chromosome>

    /** The guard's three records at this moment. */
    ghost function Record(): GuardRecord
      reads this
    {
      GuardRecord(returned, handedOut, clones)
    }

    ghost predicate Valid()
      reads this
    {
      WellFormed(Record())
    }

    constructor ()
      ensures returned == {} && handedOut == [] && clones == {} && Valid()
    {
      returned := {};
      handedOut := [];
      clones := {};
    }

    /** Forgets every object handed out so far. */
    method Reset()
      modifies this
      ensures returned == {} && handedOut == [] && clones == {} && Valid()
    {
      returned := {};
      handedOut := [];
      clones := {};
    }

    /** Hands out `selected` itself the first time, and a fresh copy of it
      * every later time until the next reset. */
    method CheckReturn(selected: Chromosome) returns (r: Chromosome)
      modifies this
      ensures Passed(this, old(Record()), selected, r)
      ensures selected in returned
      ensures old(Valid()) && selected !in old(clones) ==> Valid()
    {
      ghost var before := Record();
      if selected !in returned {
        returned := returned + {selected};
        handedOut := handedOut + [selected];
        r := selected;
      } else {
        r := selected.Clone();
        handedOut := handedOut + [r];
        clones := clones + {r};
      }
      if WellFormed(before) && selected !in before.clones {
        PassingKeepsWellFormed(before, selected, r);
      }
    }

    /** `checkReturn` of no chromosome: null is recorded and handed out the
      * first time; every later time the copy is made from null and fails. */
    method CheckReturnNull() returns (r: Outcome<Chromosome?>)
      modifies this
      ensures null !in old(returned) ==> r == Ok(null) && returned == old(returned) + {null}
      ensures null in old(returned) ==> r == Thrown(NullPointer("")) && unchanged(this)
      ensures handedOut == old(handedOut) && clones == old(clones)
      ensures old(Valid()) ==> Valid()
    {
      if null !in returned {
        returned := returned + {null};
        r := Ok(null);
      } else {
        r := Thrown(NullPointer(""));
      }
    }
  }

  /** What passing `selected` through `guard` does: it comes back itself
    * and is recorded if it had not been handed out before; otherwise a new
    * object with the same representation and genes comes back (fitness 0,
    * no parent flag) and the record of returned objects is unchanged.
    * Either way the result joins the objects handed out, and a guard that
    * had handed out nothing twice still has not, as long as `selected` is
    * not itself one of its copies. */
  twostate predicate Passed(guard: ReturnGuard, before: GuardRecord, new selected: Chromosome, new r: Chromosome)
    reads guard, selected, selected.genes, r, r.genes
  {
    && guard.Record() == Passing(before, selected, r)
    && if selected !in before.returned then r == selected
       else fresh(r) && fresh(r.genes) && CopyOf(selected, r)
  }

  /** The guard's records after handing out `r` for `selected`. */
  function Passing(before: GuardRecord, selected: Chromosome, r: Chromosome): GuardRecord
  {
    if selected !in before.returned then
      before.(returned := before.returned + {selected}, handedOut := before.handedOut + [r])
    else
      before.(handedOut := before.handedOut + [r], clones := before.clones + {r})
  }

  /** `r` has the representation and genes of `c`, no fitness and no parent flag. */
  ghost predicate CopyOf(c: Chromosome, r: Chromosome)
    reads c.genes, r, r.genes
  {
    r.kind == c.kind && r.genes[..] == c.genes[..] && r.fitness == 0.0 && !r.isParent
  }

  /** Passing an object that is not one of the guard's copies keeps a
    * well-formed record well-formed: the first time it is new to the
    * record, and every later time a fresh copy is handed out. */
  lemma PassingKeepsWellFormed(before: GuardRecord, selected: Chromosome, r: Chromosome)
    requires WellFormed(before) && selected !in before.clones
    requires selected !in before.returned ==> r == selected
    requires selected in before.returned ==> r !in before.handedOut
    ensures WellFormed(Passing(before, selected, r))
  {
    if selected !in before.returned {
      assert selected !in before.handedOut;
    }
  }

  /** The contestants at the drawn indices, in draw order. */
  function Drawn<T>(s: seq<T>, picks: seq<int>): seq<T>
    requires forall k :: 0 <= k < |picks| ==> 0 <= picks[k] < |s|
  {
    seq(|picks|, k requires 0 <= k < |picks| => s[picks[k]])
  }

  /** The fitness values of the members, in order. */
  function Fitnesses(s: seq<Chromosome>): (f: seq<real>)
    reads s
    ensures |f| == |s| && forall i :: 0 <= i < |s| ==> f[i] == s[i].fitness
  {
    seq(|s|, i requires 0 <= i < |s| reads s => s[i].fitness)
  }

  /** The position of the earliest greatest value. */
  function FirstFittest(f: seq<real>): (w: nat)
    requires |f| > 0
    ensures w < |f|
    ensures forall k :: 0 <= k < |f| ==> f[k] <= f[w]
    ensures forall k :: 0 <= k < w ==> f[k] < f[w]
  {
    if |f| == 1 then 0
    else
      var w := FirstFittest(f[..|f| - 1]);
      if f[|f| - 1] > f[w] then |f| - 1 else w
  }

  /** The tournament's winner: the first of the fittest contestants drawn. */
  function Winner(s: seq<Chromosome>, picks: seq<int>): Chromosome
    requires |picks| > 0 && forall k :: 0 <= k < |picks| ==> 0 <= picks[k] < |s|
    reads s
  {
    Drawn(s, picks)[FirstFittest(Fitnesses(Drawn(s, picks)))]
  }

  /** The sum of the values, added from first to last. */
  function Sum(f: seq<real>): real
  {
    if f == [] then 0.0 else Sum(f[..|f| - 1]) + f[|f| - 1]
  }

  /** The sum of the values up to position `j`. */
  function RunningTotal(f: seq<real>, j: nat): real
    requires j < |f|
  {
    Sum(f[..j + 1])
  }

  lemma RunningTotalOfPrefix(f: seq<real>, n: nat, j: nat)
    requires j < n <= |f|
    ensures RunningTotal(f[..n], j) == RunningTotal(f, j)
  {
    assert f[..n][..j + 1] == f[..j + 1];
  }

  /** The first position whose running sum reaches `target`, or |f| when
    * none does. */
  function RouletteIndex(f: seq<real>, target: real): (k: nat)
    ensures k <= |f|
    ensures forall j :: 0 <= j < k ==> RunningTotal(f, j) < target
    ensures k < |f| ==> RunningTotal(f, k) >= target
  {
    if f == [] then 0
    else
      var k := RouletteIndex(f[..|f| - 1], target);
      assert forall j :: 0 <= j < k ==> RunningTotal(f, j) < target by {
        forall j | 0 <= j < k
          ensures RunningTotal(f, j) < target
        {
          RunningTotalOfPrefix(f, |f| - 1, j);
        }
      }
      if k < |f| - 1 then
        RunningTotalOfPrefix(f, |f| - 1, k);
        k
      else if RunningTotal(f, |f| - 1) >= target then |f| - 1
      else |f|
  }

  /** A walk that passed every position before `i` without reaching
    * `target` and stops at `i` has found `RouletteIndex`. */
  lemma RouletteIndexIs(f: seq<real>, target: real, i: nat)
    requires i <= |f|
    requires forall j :: 0 <= j < i ==> RunningTotal(f, j) < target
    requires i < |f| ==> RunningTotal(f, i) >= target
    ensures RouletteIndex(f, target) == i
  {
    var k := RouletteIndex(f, target);
    assert k < |f| ==> RunningTotal(f, k) >= target;
  }

  lemma {:induction false} SumNonNegative(f: seq<real>)
    requires forall i :: 0 <= i < |f| ==> f[i] >= 0.0
    ensures Sum(f) >= 0.0
  {
    if f != [] {
      SumNonNegative(f[..|f| - 1]);
    }
  }

  /** The point a spin of `draw` in [0, 1) marks on a wheel of size `total`. */
  function SpinTarget(draw: real, total: real): real
  {
    draw * total
  }

  lemma ScaledBelow(draw: real, x: real)
    requires 0.0 <= draw < 1.0 && x >= 0.0
    ensures 0.0 <= SpinTarget(draw, x) <= x
    ensures x > 0.0 ==> SpinTarget(draw, x) < x
  {
    assert draw * x >= 0.0;
    assert (1.0 - draw) * x >= 0.0;
    assert x > 0.0 ==> (1.0 - draw) * x > 0.0;
    assert (1.0 - draw) * x == x - draw * x;
  }

  /** The position one roulette spin selects: the first whose running sum
    * reaches `draw` times the total, or |f| when none does. */
  function Spin(f: seq<real>, draw: real): nat
  {
    RouletteIndex(f, SpinTarget(draw, Sum(f)))
  }

  /** With a total that is not negative and a spin in [0, 1), the wheel
    * always stops on some member: the final null return is unreachable. */
  lemma RouletteAlwaysStops(f: seq<real>, draw: real)
    requires |f| > 0 && Sum(f) >= 0.0 && 0.0 <= draw < 1.0
    ensures Spin(f, draw) < |f|
  {
    ScaledBelow(draw, Sum(f));
    assert f[..|f|] == f;
    assert RunningTotal(f, |f| - 1) == Sum(f);
  }

  /** With no negative fitness the wheel never comes up empty. */
  lemma RouletteNonNegative(f: seq<real>, draw: real)
    requires |f| > 0 && 0.0 <= draw < 1.0
    requires forall i :: 0 <= i < |f| ==> f[i] >= 0.0
    ensures Spin(f, draw) < |f|
  {
    SumNonNegative(f);
    RouletteAlwaysStops(f, draw);
  }

  /** When no member has negative fitness and the total is zero, the
    * target is zero and the first member is taken. */
  lemma RouletteZeroTotal(f: seq<real>, draw: real)
    requires |f| > 0 && forall i :: 0 <= i < |f| ==> f[i] >= 0.0
    requires Sum(f) == 0.0
    ensures Spin(f, draw) == 0
  {
    assert f[..1][..0] == [];
    assert Sum(f[..1]) == Sum(f[..1][..0]) + f[..1][0];
    RouletteIndexIs(f, SpinTarget(draw, Sum(f)), 0);
  }

  function RealAbs(x: real): real { if x < 0.0 then -x else x }

  /** The position of the first value nearest `target`. */
  function Closest(f: seq<real>, target: real): (k: nat)
    requires |f| > 0
    ensures k < |f|
    ensures forall j :: 0 <= j < |f| ==> RealAbs(f[k] - target) <= RealAbs(f[j] - target)
    ensures forall j :: 0 <= j < k ==> RealAbs(f[k] - target) < RealAbs(f[j] - target)
  {
    if |f| == 1 then 0
    else
      var k := Closest(f[..|f| - 1], target);
      if RealAbs(f[|f| - 1] - target) < RealAbs(f[k] - target) then |f| - 1 else k
  }

  /** The fitness a fitness-uniform pick aims at: a point between the
    * worst and the best fitness. */
  function UniformTarget(worst: real, best: real, draw: real): real
  {
    worst + SpinTarget(draw, best - worst)
  }

  /** The position a fitness-uniform pick takes when the first value is
    * taken as the best and the last as the worst. */
  function UniformPick(f: seq<real>, draw: real): (k: nat)
    requires |f| > 0
    ensures k < |f|
  {
    Closest(f, UniformTarget(f[|f| - 1], f[0], draw))
  }

  lemma UniformTargetInRange(worst: real, best: real, draw: real)
    requires worst <= best && 0.0 <= draw < 1.0
    ensures worst <= UniformTarget(worst, best, draw) <= best
    ensures worst < best ==> UniformTarget(worst, best, draw) < best
  {
    ScaledBelow(draw, best - worst);
  }

  /** The best member of a sorted tournament is at least as fit as every contestant. */
  lemma SortedFirstIsFittest(t: seq<Chromosome>)
    requires |t| > 0
    ensures SortByFitness(t)[0] in t
    ensures forall c :: c in t ==> c.fitness <= SortByFitness(t)[0].fitness
  {
    SortIsDescending(t);
    SortPermutes(t);
    var r := SortByFitness(t);
    forall c | c in t
      ensures c.fitness <= r[0].fitness
    {
      assert c in multiset(r);
      var k :| 0 <= k < |r| && r[k] == c;
    }
    assert r[0] in multiset(t);
  }

  /** The walk of a roulette spin: sums the fitness values, then adds
    * them up again until the running sum reaches `draw` times the total. */
  method SpinWheel(s: seq<Chromosome>, draw: real) returns (k: nat)
    ensures k == Spin(Fitnesses(s), draw)
  {
    ghost var f := Fitnesses(s);
    var totalFitness := 0.0;
    for i := 0 to |s|
      invariant totalFitness == Sum(f[..i])
    {
      assert f[..i + 1][..i] == f[..i];
      totalFitness := totalFitness + s[i].fitness;
    }
    assert f[..|s|] == f;
    var targetFitness := SpinTarget(draw, totalFitness);
    var cumulativeFitness := 0.0;
    k := 0;
    while k < |s|
      invariant k <= |s|
      invariant cumulativeFitness == Sum(f[..k])
      invariant forall j :: 0 <= j < k ==> RunningTotal(f, j) < targetFitness
    {
      assert f[..k + 1][..k] == f[..k];
      cumulativeFitness := cumulativeFitness + s[k].fitness;
      assert cumulativeFitness == RunningTotal(f, k);
      if cumulativeFitness >= targetFitness {
        break;
      }
      k := k + 1;
    }
    RouletteIndexIs(f, targetFitness, k);
  }

  /** The scan for the member nearest `target`: a later member replaces
    * the current one only when strictly nearer. */
  method NearestMember(s: seq<Chromosome>, target: real) returns (k: nat)
    requires |s| > 0
    ensures k == Closest(Fitnesses(s), target)
  {
    ghost var f := Fitnesses(s);
    var selected: Chromosome? := null;
    var bestDifference := 0.0;
    k := 0;
    for i := 0 to |s|
      invariant i == 0 <==> selected == null
      invariant i > 0 ==> k == Closest(f[..i], target) && selected == s[k]
      invariant i > 0 ==> bestDifference == RealAbs(f[k] - target)
    {
      var diff := RealAbs(s[i].fitness - target);
      assert f[..i + 1][..i] == f[..i] && f[i] == s[i].fitness;
      if selected == null || diff < bestDifference {
        bestDifference := diff;
        selected := s[i];
        k := i;
      }
    }
    assert f[..|s|] == f;
  }

  /** One roulette spin over `s` whose winner passes through the guard;
    * null when the walk runs past the last member. */
  method SpinAndReturn(guard: ReturnGuard, s: seq<Chromosome>, draw: real) returns (r: Chromosome?)
    modifies guard
    ensures var k := Spin(Fitnesses(s), draw);
      && (k == |s| ==> r == null && unchanged(guard))
      && (k < |s| ==> r != null && Passed(guard, old(guard.Record()), s[k], r))
  {
    var k := SpinWheel(s, draw);
    ghost var f := Fitnesses(s);
    if k < |s| {
      r := guard.CheckReturn(s[k]);
      assert Fitnesses(s) == f;
    } else {
      r := null;
    }
  }

  /** Draws `tournamentSize` members and keeps the first of the fittest. */
  class TournamentSelection {
    const tournamentSize: int
    const guard: ReturnGuard

    constructor (tournamentSize: int)
      ensures this.tournamentSize == tournamentSize
      ensures fresh(guard) && guard.returned == {} && guard.Valid()
    {
      this.tournamentSize := tournamentSize;
      guard := new ReturnGuard();
    }

    /** `picks` are the member indices drawn. With no contestants there is
      * no candidate, and null goes through the guard; drawing from an empty
      * population fails at the first draw. */
    method Select(population: Population, picks: seq<int>) returns (r: Outcome<Chromosome?>)
      requires |picks| == (if tournamentSize < 0 then 0 else tournamentSize)
      requires |population.chromosomes| > 0 ==>
        forall k :: 0 <= k < |picks| ==> 0 <= picks[k] < |population.chromosomes|
      modifies guard
      ensures var s := population.chromosomes;
        if tournamentSize <= 0 then
          && (null !in old(guard.returned) ==>
                r == Ok(null) && guard.Record() == old(guard.Record()).(returned := old(guard.returned) + {null}))
          && (null in old(guard.returned) ==> r == Thrown(NullPointer("")) && unchanged(guard))
        else if |s| == 0 then
          r == Thrown(IllegalArgument(BoundMessage)) && unchanged(guard)
        else
          r.Ok? && r.value != null && Passed(guard, old(guard.Record()), Winner(s, picks), r.value)
    {
      var s := population.chromosomes;
      if tournamentSize <= 0 {
        r := guard.CheckReturnNull();
        return;
      }
      if |s| == 0 {
        return Thrown(IllegalArgument(BoundMessage));
      }
      var candidate := Contest(s, picks);
      ghost var f := Fitnesses(Drawn(s, picks));
      var c := guard.CheckReturn(candidate);
      assert Fitnesses(Drawn(s, picks)) == f;
      r := Ok(c);
    }
  }

  /** The tournament's draw loop: a contestant replaces the candidate only
    * when strictly fitter, so the first of the fittest wins. */
  method Contest(s: seq<Chromosome>, picks: seq<int>) returns (candidate: Chromosome)
    requires |picks| > 0 && forall k :: 0 <= k < |picks| ==> 0 <= picks[k] < |s|
    ensures candidate == Winner(s, picks)
  {
    ghost var t := Drawn(s, picks);
    ghost var f := Fitnesses(t);
    var current: Chromosome? := null;
    ghost var w: nat := 0;
    var i := 0;
    while i < |picks|
      invariant 0 <= i <= |picks|
      invariant i == 0 <==> current == null
      invariant i > 0 ==> w == FirstFittest(f[..i]) && current == t[w]
    {
      var potential := s[picks[i]];
      assert potential == t[i];
      assert f[..i + 1][..i] == f[..i];
      if current == null || potential.fitness > current.fitness {
        current := potential;
        w := i;
      }
      i := i + 1;
    }
    assert f[..|picks|] == f;
    candidate := current;
  }

  /** Cycles through the first `eliteCount` members of the sorted population. */
  class EliteSelection {
    const eliteCount: int
    var currentEliteIndex: int

    /** The index never goes negative and stays below the number of elites;
      * with no elites it stays at 0. */
    ghost predicate Valid()
      reads this
    {
      && 0 <= currentEliteIndex
      && (eliteCount == 0 ==> currentEliteIndex == 0)
      && (eliteCount != 0 ==> currentEliteIndex < Abs(eliteCount))
    }

    constructor (conf: Config)
      ensures eliteCount == TruncateToInt(conf.populationSize as real * conf.selectionRate)
      ensures currentEliteIndex == 0 && Valid()
    {
      eliteCount := TruncateToInt(conf.populationSize as real * conf.selectionRate);
      currentEliteIndex := 0;
    }

    /** Sorts when needed, then takes the member at the index and advances
      * it modulo `eliteCount`; at the index equal to `eliteCount` (only
      * possible with no elites) it gives null. */
    method Select(population: Population) returns (r: Outcome<Chromosome?>)
      requires Valid()
      modifies this, population
      ensures Valid()
      ensures population.chromosomes ==
        if old(population.sorted) then old(population.chromosomes) else SortByFitness(old(population.chromosomes))
      ensures population.sorted
      ensures var s := population.chromosomes; var i := old(currentEliteIndex);
        && (i >= |s| ==> r == Thrown(IndexOutOfBounds) && currentEliteIndex == i)
        && (i < |s| && i == eliteCount ==> r == Ok(null) && currentEliteIndex == i)
        && (i < |s| && i != eliteCount ==> r == Ok(s[i]) && currentEliteIndex == JavaRem(i + 1, eliteCount))
      ensures eliteCount >= 1 && old(currentEliteIndex) < |population.chromosomes| ==> r.Ok? && r.value != null
    {
      if !population.sorted {
        population.SortPopulation();
      }
      if currentEliteIndex >= |population.chromosomes| {
        return Thrown(IndexOutOfBounds);
      }
      var selectedElite := population.chromosomes[currentEliteIndex];
      if currentEliteIndex != eliteCount {
        currentEliteIndex := JavaRem(currentEliteIndex + 1, eliteCount);
        return Ok(selectedElite);
      }
      return Ok(null);
    }
  }

  /** Fitness-proportionate selection over the population as it stands. */
  class RouletteWheelSelection {
    const guard: ReturnGuard

    constructor ()
      ensures fresh(guard) && guard.returned == {} && guard.Valid()
    {
      guard := new ReturnGuard();
    }

    /** Spins once: the target is `draw` times the total fitness, and the
      * first member whose running sum reaches it is taken. */
    method Select(population: Population, draw: real) returns (r: Chromosome?)
      requires 0.0 <= draw < 1.0
      modifies guard
      ensures var s := population.chromosomes; var k := Spin(Fitnesses(s), draw);
        && (k == |s| ==> r == null && unchanged(guard))
        && (k < |s| ==> r != null && Passed(guard, old(guard.Record()), s[k], r))
    {
      r := SpinAndReturn(guard, population.chromosomes, draw);
    }
  }

  /** Picks the member whose fitness is nearest a target drawn between the
    * worst and the best fitness. */
  class FitnessUniformSelection {
    const guard: ReturnGuard

    constructor ()
      ensures fresh(guard) && guard.returned == {} && guard.Valid()
    {
      guard := new ReturnGuard();
    }

    /** An empty population fails when its worst member is looked up. The
      * initial best difference (Double.MAX_VALUE) exceeds every finite
      * difference, so the first member is always taken first. */
    method Select(population: Population, draw: real) returns (r: Outcome<Chromosome>)
      requires 0.0 <= draw < 1.0
      modifies population, guard
      ensures population.chromosomes ==
        if old(population.sorted) then old(population.chromosomes) else SortByFitness(old(population.chromosomes))
      ensures population.sorted
      ensures var s := population.chromosomes;
        && (|s| == 0 ==> r == Thrown(IndexOutOfBounds) && unchanged(guard))
        && (|s| > 0 ==> r.Ok? && Passed(guard, old(guard.Record()), s[UniformPick(Fitnesses(s), draw)], r.value))
    {
      if !population.sorted {
        population.SortPopulation();
      }
      if |population.chromosomes| == 0 {
        return Thrown(IndexOutOfBounds);
      }
      var c := PickUniform(population.chromosomes, draw);
      r := Ok(c);
    }

    /** The population is marked sorted by now, so the worst and the best
      * member are read from the two ends without sorting again. */
    method PickUniform(s: seq<Chromosome>, draw: real) returns (c: Chromosome)
      requires |s| > 0
      modifies guard
      ensures Passed(guard, old(guard.Record()), s[UniformPick(Fitnesses(s), draw)], c)
    {
      var worst, best := s[|s| - 1], s[0];
      var targetFitness := UniformTarget(worst.fitness, best.fitness, draw);
      var k := NearestMember(s, targetFitness);
      ghost var f := Fitnesses(s);
      assert k == UniformPick(f, draw);
      c := guard.CheckReturn(s[k]);
      assert Fitnesses(s) == f;
    }
  }

  /** Elitism with a probability of `eliteRate`, roulette otherwise; the
    * elite cycle restarts whenever the generation number changes. */
  class RouletteElitismSelection {
    const eliteCount: int
    const eliteRate: real
    var currentEliteIndex: int
    var populationNum: int
    const guard: ReturnGuard

    ghost predicate Valid()
      reads this
    {
      0 <= currentEliteIndex && (eliteCount != 0 ==> currentEliteIndex < Abs(eliteCount))
    }

    constructor (conf: Config)
      ensures eliteCount == TruncateToInt(conf.populationSize as real * conf.selectionRate)
      ensures eliteRate == conf.selectionRate
      ensures currentEliteIndex == 0 && populationNum == 0 && Valid()
      ensures fresh(guard) && guard.returned == {} && guard.Valid()
    {
      eliteCount := TruncateToInt(conf.populationSize as real * conf.selectionRate);
      eliteRate := conf.selectionRate;
      currentEliteIndex := 0;
      populationNum := 0;
      guard := new ReturnGuard();
    }

    /** `eliteDraw` decides between the branches; `spinDraw` is the roulette
      * spin, consumed only when the elite branch is not taken. With no
      * elites the modulo divides by zero after the index was incremented. */
    method Select(population: Population, eliteDraw: real, spinDraw: real) returns (r: Outcome<Chromosome?>)
      requires Valid() && 0.0 <= eliteDraw < 1.0 && 0.0 <= spinDraw < 1.0
      modifies this, population, guard
      ensures Valid() && populationNum == population.generation
      ensures population.chromosomes ==
        if old(population.sorted) then old(population.chromosomes) else SortByFitness(old(population.chromosomes))
      ensures population.sorted
      ensures var s := population.chromosomes;
        var i := if old(populationNum) != population.generation then 0 else old(currentEliteIndex);
        if eliteDraw <= eliteRate then
          && (i >= |s| ==> r == Thrown(IndexOutOfBounds) && currentEliteIndex == i && unchanged(guard))
          && (i < |s| && eliteCount == 0 ==> r == Thrown(Arithmetic) && currentEliteIndex == i + 1 && unchanged(guard))
          && (i < |s| && eliteCount != 0 ==>
                && currentEliteIndex == JavaRem(i + 1, eliteCount)
                && r.Ok? && r.value != null && Passed(guard, old(guard.Record()), s[i], r.value))
        else
          var k := Spin(Fitnesses(s), spinDraw);
          && currentEliteIndex == i
          && (k == |s| ==> r == Ok(null) && unchanged(guard))
          && (k < |s| ==> r.Ok? && r.value != null && Passed(guard, old(guard.Record()), s[k], r.value))
    {
      // Sorting touches only the population and the generation check only
      // this object, so the check is made after the sort here.
      if !population.sorted {
        population.SortPopulation();
      }
      r := Choose(population.chromosomes, population.generation, eliteDraw, spinDraw);
    }

    /** One pick from the sorted members `s` of generation `newGen`: an
      * elite with a probability of `eliteRate`, a roulette spin otherwise. */
    method Choose(s: seq<Chromosome>, newGen: int, eliteDraw: real, spinDraw: real) returns (r: Outcome<Chromosome?>)
      requires Valid()
      modifies this, guard
      ensures Valid() && populationNum == newGen
      ensures var i := if old(populationNum) != newGen then 0 else old(currentEliteIndex);
        if eliteDraw <= eliteRate then
          && (i >= |s| ==> r == Thrown(IndexOutOfBounds) && currentEliteIndex == i && unchanged(guard))
          && (i < |s| && eliteCount == 0 ==> r == Thrown(Arithmetic) && currentEliteIndex == i + 1 && unchanged(guard))
          && (i < |s| && eliteCount != 0 ==>
                && currentEliteIndex == JavaRem(i + 1, eliteCount)
                && r.Ok? && r.value != null && Passed(guard, old(guard.Record()), s[i], r.value))
        else
          var k := Spin(Fitnesses(s), spinDraw);
          && currentEliteIndex == i
          && (k == |s| ==> r == Ok(null) && unchanged(guard))
          && (k < |s| ==> r.Ok? && r.value != null && Passed(guard, old(guard.Record()), s[k], r.value))
    {
      FollowGeneration(newGen);
      if eliteDraw <= eliteRate {
        r := NextElite(s);
      } else {
        var c := SpinAndReturn(guard, s, spinDraw);
        r := Ok(c);
      }
    }

    /** A population of another generation restarts the elites at index 0. */
    method FollowGeneration(newGen: int)
      requires Valid()
      modifies this
      ensures Valid() && populationNum == newGen
      ensures currentEliteIndex == if old(populationNum) != newGen then 0 else old(currentEliteIndex)
    {
      if newGen != populationNum {
        populationNum := newGen;
        currentEliteIndex := 0;
      }
    }

    /** The elite branch: the member at the current index, after which the
      * index moves on modulo the number of elites. */
    method NextElite(s: seq<Chromosome>) returns (r: Outcome<Chromosome?>)
      requires Valid()
      modifies this, guard
      ensures Valid()
      ensures populationNum == old(populationNum)
      ensures var i := old(currentEliteIndex);
        && (i >= |s| ==> r == Thrown(IndexOutOfBounds) && currentEliteIndex == i && unchanged(guard))
        && (i < |s| && eliteCount == 0 ==> r == Thrown(Arithmetic) && currentEliteIndex == i + 1 && unchanged(guard))
        && (i < |s| && eliteCount != 0 ==>
              && currentEliteIndex == JavaRem(i + 1, eliteCount)
              && r.Ok? && r.value != null && Passed(guard, old(guard.Record()), s[i], r.value))
    {
      if currentEliteIndex >= |s| {
        return Thrown(IndexOutOfBounds);
      }
      var selected := s[currentEliteIndex];
      currentEliteIndex := currentEliteIndex + 1;
      if eliteCount == 0 {
        return Thrown(Arithmetic);
      }
      currentEliteIndex := JavaRem(currentEliteIndex, eliteCount);
      var c := guard.CheckReturn(selected);
      return Ok(c);
    }
  }

  /** A tournament drawn with replacement and sorted best first; with a
    * probability of `replacementProbability` a lower rank is taken. */
  class RandomReplacementTournament {
    const tournamentSize: int
    const replacementProbability: real
    const guard: ReturnGuard

    constructor (tournamentSize: int, replacementProbability: real)
      ensures this.tournamentSize == tournamentSize && this.replacementProbability == replacementProbability
      ensures fresh(guard) && guard.returned == {} && guard.Valid()
    {
      this.tournamentSize := tournamentSize;
      this.replacementProbability := replacementProbability;
      guard := new ReturnGuard();
    }

    /** `picks` are the member indices drawn; `replaceDraw` is drawn only
      * for a tournament of more than one, and `rankDraw` only when the
      * replacement branch is taken. Drawing from an empty population fails
      * at the first draw, and an empty tournament has no rank 0. */
    method Select(population: Population, picks: seq<int>, replaceDraw: real, rankDraw: int)
      returns (r: Outcome<Chromosome>)
      requires |picks| == (if tournamentSize < 0 then 0 else tournamentSize)
      requires |population.chromosomes| > 0 ==>
        forall k :: 0 <= k < |picks| ==> 0 <= picks[k] < |population.chromosomes|
      requires tournamentSize > 1 ==> 0.0 <= replaceDraw < 1.0
      requires tournamentSize > 1 && replaceDraw < replacementProbability ==> 1 <= rankDraw < tournamentSize
      modifies guard
      ensures var s := population.chromosomes;
        if tournamentSize <= 0 then
          r == Thrown(IndexOutOfBounds) && unchanged(guard)
        else if |s| == 0 then
          r == Thrown(IllegalArgument(BoundMessage)) && unchanged(guard)
        else
          var t := SortByFitness(Drawn(s, picks));
          if tournamentSize > 1 && replaceDraw < replacementProbability then
            r.Ok? && Passed(guard, old(guard.Record()), t[rankDraw], r.value)
          else
            r.Ok? && Passed(guard, old(guard.Record()), t[0], r.value)
    {
      var individuals := population.chromosomes;
      var tournament: seq<Chromosome> := [];
      for i := 0 to |picks|
        invariant i > 0 ==> |individuals| > 0
        invariant tournament == Drawn(individuals, picks[..i])
      {
        if |individuals| == 0 {
          return Thrown(IllegalArgument(BoundMessage));
        }
        tournament := tournament + [individuals[picks[i]]];
      }
      assert picks[..|picks|] == picks;
      tournament := SortByFitness(tournament);
      if tournamentSize > 1 && replaceDraw < replacementProbability {
        var selected := tournament[rankDraw];
        var c := guard.CheckReturn(selected);
        return Ok(c);
      }
      if |tournament| == 0 {
        return Thrown(IndexOutOfBounds);
      }
      var c := guard.CheckReturn(tournament[0]);
      return Ok(c);
    }
  }
}
