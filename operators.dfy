/**
 * The operators an engine holds, one variant per concrete class, and the
 * call the engine makes on each: `select` on a population, `crossover` on
 * two parents, `mutate` on one member. Each call takes the random draws
 * the operator would consume as one record.
 */
module Operators {
  import opened Common
  import opened Chromosomes
  import opened Populations
  import opened Selection
  import opened Crossovers
  import opened OrderCrossover
  import opened CyclicCrossover
  import opened Mutations

  // ---------------------------------------------------------------------
  // Chromosomes of one shape

  /** A chromosome of representation `kind` with `length` genes, all set. */
  ghost predicate Shaped(c: Chromosome, kind: Kind, length: int)
    reads c.genes
  {
    c.kind == kind && c.genes.Length == length && c.Ready()
  }

  /** Every member has that shape. */
  ghost predicate AllShaped(s: seq<Chromosome>, kind: Kind, length: int)
    reads set c | c in s :: c.genes
  {
    forall c :: c in s ==> Shaped(c, kind, length)
  }

  // ---------------------------------------------------------------------
  // Selection

  datatype SelectionOperator =
    | Tournament(tournament: TournamentSelection)
    | Elite(elite: EliteSelection)
    | RouletteWheel(roulette: RouletteWheelSelection)
    | FitnessUniform(uniform: FitnessUniformSelection)
    | RouletteElitism(rouletteElitism: RouletteElitismSelection)
    | RandomReplacement(replacement: RandomReplacementTournament)

  /** The draws of one `select` call: the tournament indices, the double
    * drawn first (the roulette spin, the uniform target, the elitism or
    * replacement decision), the roulette spin of elitism selection, and
    * the rank taken by a replacement tournament. */
  datatype SelectionDraw = SelectionDraw(picks: seq<int>, draw: real, spinDraw: real, rankDraw: int)

  /** The objects a selection operator changes besides the population:
    * its guard, and its own counters where it has any. */
  function SelectionState(op: SelectionOperator): set<object>
  {
    match op
    case Tournament(t) => {t.guard}
    case Elite(e) => {e}
    case RouletteWheel(w) => {w.guard}
    case FitnessUniform(u) => {u.guard}
    case RouletteElitism(re) => {re, re.guard}
    case RandomReplacement(rr) => {rr.guard}
  }

  /** The selection state is made of the operators' own objects: no
    * population, chromosome, gene array or mutation counter is part of it. */
  lemma StateApart(op: SelectionOperator, p: Population, s: seq<Chromosome>, counters: set<NonUniform>)
    ensures p !in SelectionState(op)
    ensures forall c :: c in s ==> c !in SelectionState(op) && c.genes !in SelectionState(op)
    ensures forall nu :: nu in counters ==> nu !in SelectionState(op)
  {
  }

  ghost predicate SelectionValid(op: SelectionOperator)
    reads SelectionState(op)
  {
    match op
    case Elite(e) => e.Valid()
    case RouletteElitism(re) => re.Valid()
    case _ => true
  }

  predicate InRange(picks: seq<int>, size: int)
  {
    forall k :: 0 <= k < |picks| ==> 0 <= picks[k] < size
  }

  /** Draws in the ranges the strategy's random calls give, for a
    * population of `size` members; an empty population has no index to
    * draw, so a tournament's draws are then unconstrained. */
  predicate SelectionDrawFits(op: SelectionOperator, size: int, d: SelectionDraw)
  {
    match op
    case Tournament(t) =>
      && |d.picks| == (if t.tournamentSize < 0 then 0 else t.tournamentSize)
      && (size > 0 ==> InRange(d.picks, size))
    case Elite(_) => true
    case RouletteWheel(_) => 0.0 <= d.draw < 1.0
    case FitnessUniform(_) => 0.0 <= d.draw < 1.0
    case RouletteElitism(_) => 0.0 <= d.draw < 1.0 && 0.0 <= d.spinDraw < 1.0
    case RandomReplacement(rr) =>
      && |d.picks| == (if rr.tournamentSize < 0 then 0 else rr.tournamentSize)
      && (size > 0 ==> InRange(d.picks, size))
      && (rr.tournamentSize > 1 ==> 0.0 <= d.draw < 1.0)
      && (rr.tournamentSize > 1 && d.draw < rr.replacementProbability ==> 1 <= d.rankDraw < rr.tournamentSize)
  }

  /** Elite, fitness-uniform and roulette-elitism selection sort the
    * population before they pick. */
  predicate SortsFirst(op: SelectionOperator)
  {
    op.Elite? || op.FitnessUniform? || op.RouletteElitism?
  }

  /** The members a `select` call picks from, in the order it leaves them. */
  ghost function Ordered(op: SelectionOperator, s: seq<Chromosome>, sorted: bool): (o: seq<Chromosome>)
    reads s
    ensures |o| == |s|
  {
    if SortsFirst(op) && !sorted then SortByFitness(s) else s
  }

  /** The counters a strategy consults when it picks: the elite index of
    * elite and roulette-elitism selection, and the generation roulette
    * elitism saw last. */
  datatype Cursor = Cursor(eliteIndex: int, populationNum: int)

  function CursorOf(op: SelectionOperator): Cursor
    reads SelectionState(op)
  {
    match op
    case Elite(e) => Cursor(e.currentEliteIndex, 0)
    case RouletteElitism(re) => Cursor(re.currentEliteIndex, re.populationNum)
    case _ => Cursor(0, 0)
  }

  /** The member a `select` call picks, with its counters at `cur`, from
    * the members `o` of a population of generation `generation`, in the
    * order it leaves them and with fitness values `f`, before the guard
    * sees it; None when the call throws or gives null. */
  function Chosen(op: SelectionOperator, cur: Cursor, o: seq<Chromosome>, f: seq<real>, generation: int,
                  d: SelectionDraw): Option<Chromosome>
    requires |f| == |o|
  {
    match op
    case Tournament(t) =>
      if t.tournamentSize >= 1 && |o| > 0 && |d.picks| > 0 && InRange(d.picks, |o|)
      then Some(Drawn(o, d.picks)[FirstFittest(Drawn(f, d.picks))]) else None
    case Elite(e) =>
      var i := cur.eliteIndex;
      if 0 <= i < |o| && i != e.eliteCount then Some(o[i]) else None
    case RouletteWheel(_) =>
      var k := Spin(f, d.draw);
      if k < |o| then Some(o[k]) else None
    case FitnessUniform(_) =>
      if |o| > 0 then Some(o[UniformPick(f, d.draw)]) else None
    case RouletteElitism(re) =>
      var i := if cur.populationNum != generation then 0 else cur.eliteIndex;
      var k := if d.draw <= re.eliteRate then i else Spin(f, d.spinDraw);
      if d.draw <= re.eliteRate && re.eliteCount == 0 then None
      else if 0 <= k < |o| then Some(o[k]) else None
    case RandomReplacement(rr) =>
      var rank := if rr.tournamentSize > 1 && d.draw < rr.replacementProbability then d.rankDraw else 0;
      if rr.tournamentSize >= 1 && |o| > 0 && InRange(d.picks, |o|) && 0 <= rank < |d.picks|
      then Some(Members(SortByKey(Paired(Drawn(o, d.picks), Drawn(f, d.picks))))[rank]) else None
  }

  /** Every strategy chooses one of the members it picks from. */
  lemma ChosenIsMember(op: SelectionOperator, cur: Cursor, o: seq<Chromosome>, f: seq<real>, generation: int,
                       d: SelectionDraw)
    requires |f| == |o|
    ensures var c := Chosen(op, cur, o, f, generation, d); c.Some? ==> c.value in o
  {
    var c := Chosen(op, cur, o, f, generation, d);
    if c.Some? && op.RandomReplacement? {
      var t := Drawn(o, d.picks);
      var e := Paired(t, Drawn(f, d.picks));
      SortMembersPermute(e);
      assert Members(e) == t;
      assert c.value in multiset(Members(SortByKey(e)));
      assert c.value in t;
    }
  }

  /** What a `select` call gives when the strategy chose `c`: the chosen
    * member itself or a copy of it, and no chromosome when none was chosen. */
  ghost predicate Delivers(c: Option<Chromosome>, r: Outcome<Chromosome?>)
    reads if c.Some? then {c.value.genes} else {}
    reads if r.Ok? && r.value != null then {r.value, r.value.genes} else {}
  {
    && (r.Ok? && r.value != null <==> c.Some?)
    && (c.Some? && r.Ok? && r.value != null ==> r.value == c.value || CopyOf(c.value, r.value))
  }

  /** One `select` call. The strategies that sort leave the population
    * sorted, the others leave it as it was; the result is the member the
    * strategy chose, or a fresh copy of it once the guard has handed that
    * member out. */
  method Select(op: SelectionOperator, population: Population, d: SelectionDraw, kind: Kind, length: int)
    returns (r: Outcome<Chromosome?>)
    requires SelectionValid(op) && SelectionDrawFits(op, |population.chromosomes|, d)
    requires AllShaped(population.chromosomes, kind, length)
    modifies population, SelectionState(op)
    ensures SelectionValid(op)
    ensures population.chromosomes == Ordered(op, old(population.chromosomes), old(population.sorted))
    ensures multiset(population.chromosomes) == multiset(old(population.chromosomes))
    ensures AllShaped(population.chromosomes, kind, length)
    ensures Delivers(Chosen(op, old(CursorOf(op)), population.chromosomes, Fitnesses(population.chromosomes), population.generation, d), r)
    ensures r.Ok? && r.value != null ==>
      && Shaped(r.value, kind, length)
      && (r.value in old(population.chromosomes) || (fresh(r.value) && fresh(r.value.genes)))
  {
    match op {
      case Tournament(t) =>
        r := SelectTournament(t, population, d, kind, length);
      case Elite(e) =>
        r := SelectElite(e, population, d, kind, length);
      case RouletteWheel(w) =>
        r := SelectRoulette(w, population, d, kind, length);
      case FitnessUniform(u) =>
        r := SelectUniform(u, population, d, kind, length);
      case RouletteElitism(re) =>
        r := SelectRouletteElitism(re, population, d, kind, length);
      case RandomReplacement(rr) =>
        r := SelectReplacement(rr, population, d, kind, length);
    }
  }

  lemma SameMembersKeepShape(s: seq<Chromosome>, t: seq<Chromosome>, kind: Kind, length: int)
    requires multiset(s) == multiset(t) && AllShaped(s, kind, length)
    ensures AllShaped(t, kind, length)
  {
    assert forall x :: x in t ==> x in multiset(s);
  }

  method SelectTournament(t: TournamentSelection, population: Population, d: SelectionDraw,
                          kind: Kind, length: int)
    returns (r: Outcome<Chromosome?>)
    requires SelectionDrawFits(Tournament(t), |population.chromosomes|, d)
    requires AllShaped(population.chromosomes, kind, length)
    modifies population, t.guard
    ensures population.chromosomes == old(population.chromosomes)
    ensures Delivers(Chosen(Tournament(t), old(CursorOf(Tournament(t))), population.chromosomes, Fitnesses(population.chromosomes), population.generation, d), r)
    ensures AllShaped(population.chromosomes, kind, length)
    ensures r.Ok? && r.value != null ==>
      && Shaped(r.value, kind, length)
      && (r.value in old(population.chromosomes) || (fresh(r.value) && fresh(r.value.genes)))
  {
    ghost var s := population.chromosomes;
    r := t.Select(population, d.picks);
    if r.Ok? && r.value != null {
      ghost var w := Winner(s, d.picks);
      assert Fitnesses(Drawn(s, d.picks)) == Drawn(Fitnesses(s), d.picks);
      assert w in s;
      if r.value != w {
        assert r.value.genes[..] == w.genes[..];
      }
    }
  }

  method SelectElite(e: EliteSelection, population: Population, d: SelectionDraw, kind: Kind, length: int)
    returns (r: Outcome<Chromosome?>)
    requires e.Valid()
    requires AllShaped(population.chromosomes, kind, length)
    modifies population, e
    ensures e.Valid()
    ensures population.chromosomes == Ordered(Elite(e), old(population.chromosomes), old(population.sorted))
    ensures multiset(population.chromosomes) == multiset(old(population.chromosomes))
    ensures Delivers(Chosen(Elite(e), old(CursorOf(Elite(e))), population.chromosomes, Fitnesses(population.chromosomes), population.generation, d), r)
    ensures AllShaped(population.chromosomes, kind, length)
    ensures r.Ok? && r.value != null ==> Shaped(r.value, kind, length) && r.value in old(population.chromosomes)
  {
    ghost var s := population.chromosomes;
    SortPermutes(s);
    r := e.Select(population);
    if r.Ok? && r.value != null {
      assert r.value in multiset(population.chromosomes);
    }
    SameMembersKeepShape(s, population.chromosomes, kind, length);
  }

  method SelectRoulette(w: RouletteWheelSelection, population: Population, d: SelectionDraw,
                        kind: Kind, length: int)
    returns (r: Outcome<Chromosome?>)
    requires 0.0 <= d.draw < 1.0
    requires AllShaped(population.chromosomes, kind, length)
    modifies population, w.guard
    ensures population.chromosomes == old(population.chromosomes)
    ensures Delivers(Chosen(RouletteWheel(w), old(CursorOf(RouletteWheel(w))), population.chromosomes, Fitnesses(population.chromosomes), population.generation, d), r)
    ensures AllShaped(population.chromosomes, kind, length)
    ensures r.Ok? && r.value != null ==>
      && Shaped(r.value, kind, length)
      && (r.value in old(population.chromosomes) || (fresh(r.value) && fresh(r.value.genes)))
  {
    ghost var s := population.chromosomes;
    var c := w.Select(population, d.draw);
    if c != null {
      ghost var selected := s[Spin(Fitnesses(s), d.draw)];
      assert selected in s;
      if c != selected {
        assert c.genes[..] == selected.genes[..];
      }
    }
    r := Ok(c);
  }

  method SelectUniform(u: FitnessUniformSelection, population: Population, d: SelectionDraw,
                       kind: Kind, length: int)
    returns (r: Outcome<Chromosome?>)
    requires 0.0 <= d.draw < 1.0
    requires AllShaped(population.chromosomes, kind, length)
    modifies population, u.guard
    ensures population.chromosomes == Ordered(FitnessUniform(u), old(population.chromosomes), old(population.sorted))
    ensures multiset(population.chromosomes) == multiset(old(population.chromosomes))
    ensures Delivers(Chosen(FitnessUniform(u), old(CursorOf(FitnessUniform(u))), population.chromosomes, Fitnesses(population.chromosomes), population.generation, d), r)
    ensures AllShaped(population.chromosomes, kind, length)
    ensures r.Ok? && r.value != null ==>
      && Shaped(r.value, kind, length)
      && (r.value in old(population.chromosomes) || (fresh(r.value) && fresh(r.value.genes)))
  {
    ghost var s := population.chromosomes;
    SortPermutes(s);
    var c := u.Select(population, d.draw);
    ghost var t := population.chromosomes;
    assert multiset(t) == multiset(s);
    SameMembersKeepShape(s, t, kind, length);
    if c.Ok? {
      ghost var pick := UniformPick(Fitnesses(t), d.draw);
      ReorderedMember(s, t, pick);
      ghost var selected := t[pick];
      if c.value != selected {
        assert c.value.genes[..] == selected.genes[..];
      }
      r := Ok(c.value);
    } else {
      r := Thrown(c.exception);
    }
  }

  /** A member of a reordering of `s` is a member of `s`. */
  lemma ReorderedMember(s: seq<Chromosome>, t: seq<Chromosome>, i: int)
    requires multiset(t) == multiset(s) && 0 <= i < |t|
    ensures t[i] in s
  {
    assert t[i] in multiset(t);
  }

  /** The member at any rank of a sorted tournament is a member of the
    * population it was drawn from. */
  lemma RankedIsMember(s: seq<Chromosome>, picks: seq<int>, rank: int)
    requires forall k :: 0 <= k < |picks| ==> 0 <= picks[k] < |s|
    requires 0 <= rank < |picks|
    ensures SortByFitness(Drawn(s, picks))[rank] in s
  {
    var t := Drawn(s, picks);
    SortPermutes(t);
    assert SortByFitness(t)[rank] in multiset(t);
  }

  method SelectReplacement(rr: RandomReplacementTournament, population: Population, d: SelectionDraw,
                           kind: Kind, length: int)
    returns (r: Outcome<Chromosome?>)
    requires SelectionDrawFits(RandomReplacement(rr), |population.chromosomes|, d)
    requires AllShaped(population.chromosomes, kind, length)
    modifies population, rr.guard
    ensures population.chromosomes == old(population.chromosomes)
    ensures Delivers(Chosen(RandomReplacement(rr), old(CursorOf(RandomReplacement(rr))), population.chromosomes, Fitnesses(population.chromosomes), population.generation, d), r)
    ensures AllShaped(population.chromosomes, kind, length)
    ensures r.Ok? && r.value != null ==>
      && Shaped(r.value, kind, length)
      && (r.value in old(population.chromosomes) || (fresh(r.value) && fresh(r.value.genes)))
  {
    ghost var s := population.chromosomes;
    var c := rr.Select(population, d.picks, d.draw, d.rankDraw);
    if c.Ok? {
      ghost var rank := if rr.tournamentSize > 1 && d.draw < rr.replacementProbability then d.rankDraw else 0;
      RankedIsMember(s, d.picks, rank);
      ghost var selected := SortByFitness(Drawn(s, d.picks))[rank];
      assert KeyedByFitness(Drawn(s, d.picks)) == Paired(Drawn(s, d.picks), Drawn(Fitnesses(s), d.picks));
      if c.value != selected {
        assert c.value.genes[..] == selected.genes[..];
      }
      r := Ok(c.value);
    } else {
      r := Thrown(c.exception);
    }
  }

  method SelectRouletteElitism(re: RouletteElitismSelection, population: Population, d: SelectionDraw,
                               kind: Kind, length: int)
    returns (r: Outcome<Chromosome?>)
    requires re.Valid() && 0.0 <= d.draw < 1.0 && 0.0 <= d.spinDraw < 1.0
    requires AllShaped(population.chromosomes, kind, length)
    modifies population, re, re.guard
    ensures re.Valid()
    ensures population.chromosomes == Ordered(RouletteElitism(re), old(population.chromosomes), old(population.sorted))
    ensures multiset(population.chromosomes) == multiset(old(population.chromosomes))
    ensures Delivers(Chosen(RouletteElitism(re), old(CursorOf(RouletteElitism(re))), population.chromosomes, Fitnesses(population.chromosomes), population.generation, d), r)
    ensures AllShaped(population.chromosomes, kind, length)
    ensures r.Ok? && r.value != null ==>
      && Shaped(r.value, kind, length)
      && (r.value in old(population.chromosomes) || (fresh(r.value) && fresh(r.value.genes)))
  {
    ghost var s := population.chromosomes;
    SortPermutes(s);
    r := ElitismPick(re, population, d);
    ghost var t := population.chromosomes;
    SameMembersKeepShape(s, t, kind, length);
    if r.Ok? && r.value != null {
      ghost var c := Chosen(RouletteElitism(re), old(CursorOf(RouletteElitism(re))), t, Fitnesses(t), population.generation, d).value;
      assert c in multiset(t);
      assert c in s;
    }
  }

  /** The roulette-elitism call itself: the member it picks at its elite
    * index or on its wheel, passed through the guard. */
  method ElitismPick(re: RouletteElitismSelection, population: Population, d: SelectionDraw)
    returns (r: Outcome<Chromosome?>)
    requires re.Valid() && 0.0 <= d.draw < 1.0 && 0.0 <= d.spinDraw < 1.0
    modifies population, re, re.guard
    ensures re.Valid()
    ensures population.chromosomes == Ordered(RouletteElitism(re), old(population.chromosomes), old(population.sorted))
    ensures var c := Chosen(RouletteElitism(re), old(CursorOf(RouletteElitism(re))), population.chromosomes, Fitnesses(population.chromosomes), population.generation, d);
      && Delivers(c, r)
      && (r.Ok? && r.value != null ==> r.value == c.value || (fresh(r.value) && fresh(r.value.genes)))
  {
    ghost var cur := CursorOf(RouletteElitism(re));
    ghost var i := if re.populationNum != population.generation then 0 else re.currentEliteIndex;
    r := re.Select(population, d.draw, d.spinDraw);
    ghost var t := population.chromosomes;
    ghost var k := if d.draw <= re.eliteRate then i else Spin(Fitnesses(t), d.spinDraw);
    ghost var c := Chosen(RouletteElitism(re), cur, t, Fitnesses(t), population.generation, d);
    assert c == if d.draw <= re.eliteRate && re.eliteCount == 0 then None
                else if 0 <= k < |t| then Some(t[k]) else None;
  }

  /** The guard of a strategy that keeps one. */
  function GuardOf(op: SelectionOperator): Option<ReturnGuard>
  {
    match op
    case Tournament(t) => Some(t.guard)
    case Elite(_) => None
    case RouletteWheel(w) => Some(w.guard)
    case FitnessUniform(u) => Some(u.guard)
    case RouletteElitism(re) => Some(re.guard)
    case RandomReplacement(rr) => Some(rr.guard)
  }

  /** The strategy's guard, if it has one, has handed out nothing. */
  ghost predicate Cleared(op: SelectionOperator)
    reads if GuardOf(op).Some? then {GuardOf(op).value} else {}
  {
    GuardOf(op).Some? ==> GuardOf(op).value.Record() == GuardRecord({}, [], {})
  }

  /** `reset` on the strategy: every guard forgets what it handed out;
    * the elite counters of elite and roulette-elitism selection are kept. */
  method Reset(op: SelectionOperator)
    modifies SelectionState(op)
    ensures Cleared(op)
    ensures SelectionValid(op) == old(SelectionValid(op))
    ensures op.Elite? ==> unchanged(op.elite)
    ensures op.RouletteElitism? ==> unchanged(op.rouletteElitism)
  {
    match op {
      case Tournament(t) => t.guard.Reset();
      case Elite(_) =>
      case RouletteWheel(w) => w.guard.Reset();
      case FitnessUniform(u) => u.guard.Reset();
      case RouletteElitism(re) => re.guard.Reset();
      case RandomReplacement(rr) => rr.guard.Reset();
    }
  }

  // ---------------------------------------------------------------------
  // Crossover

  datatype CrossoverOperator =
    | SinglePointCrossOver
    | TwoPointCrossOver
    | OrderCrossOver
    | CyclicCrossOver
    | ProbabilityCrossOver(probabilityCrossover: ProbabilityCrossover)
    | NoiseReductionCrossOver
    | EccentricCrossOver

  /** The draws of one `crossover` call: the first and second point, the
    * redraws of a second point that must differ from the first, and one
    * double per gene. */
  datatype CrossoverDraw = CrossoverDraw(point1: int, point2: int, redraws: seq<int>, doubles: seq<real>)

  /** The operators that draw a point with `nextInt(length)` before anything
    * else, and so throw on parents without genes. */
  predicate DrawsPoint(op: CrossoverOperator)
  {
    op.SinglePointCrossOver? || op.TwoPointCrossOver? || op.OrderCrossOver?
  }

  predicate CrossoverDrawFits(op: CrossoverOperator, length: int, d: CrossoverDraw)
  {
    match op
    case SinglePointCrossOver => length > 0 ==> 0 <= d.point1 < length
    case TwoPointCrossOver => length > 0 ==> RedrawDraws(length, d.point1, d.redraws)
    case OrderCrossOver => length > 0 ==> 0 <= d.point1 < length && 0 <= d.point2 < length
    case CyclicCrossOver => true
    case ProbabilityCrossOver(_) =>
      |d.doubles| == length && forall i :: 0 <= i < |d.doubles| ==> 0.0 <= d.doubles[i] < 1.0
    case NoiseReductionCrossOver => true
    case EccentricCrossOver => true
  }

  /** The offspring genes each operator builds from the parents' genes. */
  function CrossoverResult(op: CrossoverOperator, p1: seq<Gene>, p2: seq<Gene>, d: CrossoverDraw): Outcome<seq<Gene>>
    requires |p1| == |p2| && CrossoverDrawFits(op, |p1|, d)
  {
    if |p1| == 0 && DrawsPoint(op) then Thrown(IllegalArgument(BoundMessage)) else
    match op
    case SinglePointCrossOver => Ok(SinglePointGenes(p1, p2, d.point1))
    case TwoPointCrossOver => Ok(TwoPointGenes(p1, p2, d.point1, Redrawn(|p1|, d.point1, d.redraws)))
    case OrderCrossOver => OrderGenes(p1, p2, d.point1, d.point2)
    case CyclicCrossOver => CyclicGenes(p1, p2)
    case ProbabilityCrossOver(pc) => Ok(ProbabilityGenes(p1, p2, pc.probability, d.doubles))
    case NoiseReductionCrossOver => Pointwise(AverageGenes, p1, p2)
    case EccentricCrossOver => Pointwise(EccentricGene, p1, p2)
  }

  /** For parents of one representation with every gene set, only order
    * and cyclic crossover and a point drawn on parents without genes can
    * fail, and every offspring has every gene set and of that
    * representation. */
  lemma CrossoverOfSetParents(op: CrossoverOperator, kind: Kind, p1: seq<Gene>, p2: seq<Gene>, d: CrossoverDraw)
    requires |p1| == |p2| && CrossoverDrawFits(op, |p1|, d)
    requires AllFit(kind, p1) && AllFit(kind, p2) && AllSet(p1) && AllSet(p2)
    ensures |p1| == 0 && DrawsPoint(op) ==> CrossoverResult(op, p1, p2, d) == Thrown(IllegalArgument(BoundMessage))
    ensures !op.OrderCrossOver? && !op.CyclicCrossOver? && !(|p1| == 0 && DrawsPoint(op)) ==>
      CrossoverResult(op, p1, p2, d).Ok?
    ensures CrossoverResult(op, p1, p2, d).Ok? ==>
      var r := CrossoverResult(op, p1, p2, d).value;
      |r| == |p1| && AllFit(kind, r) && AllSet(r)
  {
    var n := |p1|;
    if n == 0 && DrawsPoint(op) {
      return;
    }
    match op {
      case SinglePointCrossOver =>
        SinglePointProperties(p1, p2, d.point1);
      case TwoPointCrossOver =>
        TwoPointProperties(p1, p2, d.point1, Redrawn(n, d.point1, d.redraws));
      case OrderCrossOver =>
        OrderKeepsSegment(p1, p2, d.point1, d.point2);
      case CyclicCrossOver =>
        CyclicFromParents(p1, p2);
      case ProbabilityCrossOver(pc) =>
        ProbabilityProperties(p1, p2, pc.probability, d.doubles);
      case NoiseReductionCrossOver =>
        forall i | 0 <= i < n
          ensures AverageGenes(p1[i], p2[i]).Ok? && Fits(kind, AverageGenes(p1[i], p2[i]).value)
        {
          AverageGenesProperties(kind, p1[i], p2[i]);
        }
      case EccentricCrossOver =>
        forall i | 0 <= i < n
          ensures EccentricGene(p1[i], p2[i]).Ok? && Fits(kind, EccentricGene(p1[i], p2[i]).value)
        {
          EccentricGeneFromParents(kind, p1[i], p2[i]);
        }
    }
  }

  /** One `crossover` call: a new chromosome with the operator's offspring
    * genes, or the exception the operator throws. */
  method Cross(op: CrossoverOperator, parent1: Chromosome, parent2: Chromosome, d: CrossoverDraw)
    returns (r: Outcome<Chromosome>)
    requires Mates(parent1, parent2) && CrossoverDrawFits(op, parent1.genes.Length, d)
    ensures match CrossoverResult(op, parent1.genes[..], parent2.genes[..], d)
      case Ok(genes) => r.Ok? && fresh(r.value) && Offspring(parent1, r.value) && r.value.genes[..] == genes
      case Thrown(e) => r == Thrown(e)
  {
    match op {
      case SinglePointCrossOver =>
        r := SinglePoint(parent1, parent2, d.point1);
      case TwoPointCrossOver =>
        r := TwoPoint(parent1, parent2, d.point1, d.redraws);
      case OrderCrossOver =>
        r := OrderCross(parent1, parent2, d.point1, d.point2);
      case CyclicCrossOver =>
        r := CyclicCross(parent1, parent2);
      case ProbabilityCrossOver(pc) =>
        var c := pc.Crossover(parent1, parent2, d.doubles);
        r := Ok(c);
      case NoiseReductionCrossOver =>
        r := NoiseReduction(parent1, parent2);
      case EccentricCrossOver =>
        r := Eccentric(parent1, parent2);
    }
  }

  // ---------------------------------------------------------------------
  // Mutation

  datatype MutationOperator =
    | SinglePointMutation
    | TwoPointMutation
    | SwapMutation
    | ScrambleMutation
    | BiasedMutation
    | NonUniformMutation(nonUniform: NonUniform)

  /** The draws of one `mutate` call: the first position, the redraws of a
    * second position, the end-point draws and shuffle draws of a
    * scramble, one double per gene, and the draws of each `mutateGen`. */
  datatype MutationDraw = MutationDraw(point1: int, redraws: seq<int>, endDraws: seq<int>, shuffleDraws: seq<int>,
                                       doubles: seq<real>, geneDraws: seq<seq<int>>)

  /** Draws with which `mutateGen` replaces any set gene of the
    * representation that it can change: decimal draws lie in [0, n), and
    * from two genes on they hold two different values, so one of them
    * differs from whatever gene is there. */
  predicate GeneDraws(kind: Kind, n: int, draws: seq<int>)
  {
    match kind
    case Binary => true
    case Decimal(_) =>
      && |draws| >= 1
      && (forall k :: 0 <= k < |draws| ==> 0 <= draws[k] < n)
      && (n >= 2 ==> exists k, m :: 0 <= k < m < |draws| && draws[k] != draws[m])
    case Letters => |draws| >= 1 && 0 <= draws[0] < AlphabetSize
  }

  /** The one gene of a one-gene decimal chromosome is 0: `nextInt(1)`
    * only ever draws 0, so `mutateGen` never finds a different value. */
  predicate Stuck(kind: Kind, s: seq<Gene>)
  {
    kind.Decimal? && s == [Int(0)]
  }

  lemma GeneDrawsSuffice(kind: Kind, n: nat, g: Gene, draws: seq<int>)
    requires GeneDraws(kind, n, draws) && Fits(kind, g) && g != Null
    requires kind.Decimal? && n == 1 ==> g != Int(0)
    ensures MutateDraws(kind, n, g, draws)
  {
    if kind.Decimal? {
      if n >= 2 {
        var k, m :| 0 <= k < m < |draws| && draws[k] != draws[m];
        if draws[k] == g.value {
          assert draws[m] != g.value;
        }
      } else {
        assert draws[0] != g.value;
      }
    }
  }

  /** Chosen positions of a set chromosome can be mutated with such draws,
    * unless the chosen gene is stuck. */
  lemma GeneDrawsWhere(kind: Kind, s: seq<Gene>, chosen: seq<bool>, draws: seq<seq<int>>)
    requires AllFit(kind, s) && AllSet(s) && |chosen| == |s| == |draws|
    requires forall i :: 0 <= i < |s| ==> GeneDraws(kind, |s|, draws[i])
    requires Stuck(kind, s) ==> !chosen[0]
    ensures WhereDraws(kind, s, chosen, draws)
  {
    forall i | 0 <= i < |s| && chosen[i]
      ensures MutateDraws(kind, |s|, s[i], draws[i])
    {
      GeneDrawsSuffice(kind, |s|, s[i], draws[i]);
    }
  }

  /** Whether the biased or the non-uniform mutation picks a gene with
    * the double `draw`; the other operators draw no doubles. */
  predicate Picks(op: MutationOperator, fitness: real, draw: real)
    reads MutationState(op)
  {
    match op
    case BiasedMutation => BiasedChoice(fitness, [draw])[0]
    case NonUniformMutation(nu) => NonUniformChoice(nu.MutationProbability(), [draw])[0]
    case _ => false
  }

  /** The call never returns: the single point mutation, or a biased or
    * non-uniform mutation whose double picks the gene, calls `mutateGen`
    * on a stuck gene. */
  predicate MutationHangs(op: MutationOperator, kind: Kind, s: seq<Gene>, fitness: real, d: MutationDraw)
    reads MutationState(op)
  {
    && Stuck(kind, s)
    && (op.SinglePointMutation? || (|d.doubles| >= 1 && Picks(op, fitness, d.doubles[0])))
  }

  /** The point mutations draw a position with `nextInt(length)` first,
    * and so throw on a chromosome without genes. */
  predicate MutationThrows(op: MutationOperator, length: int)
  {
    length == 0 && (op.SinglePointMutation? || op.TwoPointMutation?)
  }

  predicate MutationDrawFits(op: MutationOperator, kind: Kind, length: int, d: MutationDraw)
  {
    match op
    case SinglePointMutation =>
      length > 0 ==> 0 <= d.point1 < length && |d.geneDraws| >= 1 && GeneDraws(kind, length, d.geneDraws[0])
    case TwoPointMutation =>
      length > 0 ==>
      && RedrawDraws(length, d.point1, d.redraws)
      && |d.geneDraws| >= 2 && GeneDraws(kind, length, d.geneDraws[0]) && GeneDraws(kind, length, d.geneDraws[1])
    case SwapMutation => length >= 2 ==> RedrawDraws(length, d.point1, d.redraws)
    case ScrambleMutation => length >= 2 ==> ScrambleDraws(length, d.point1, d.endDraws, d.shuffleDraws)
    case BiasedMutation =>
      && |d.doubles| == length && |d.geneDraws| == length
      && forall i :: 0 <= i < length ==> GeneDraws(kind, length, d.geneDraws[i])
    case NonUniformMutation(_) =>
      && |d.doubles| == length && |d.geneDraws| == length
      && forall i :: 0 <= i < length ==> GeneDraws(kind, length, d.geneDraws[i])
  }

  /** The genes of the member after one `mutate` call. Non-uniform
    * mutation works on a clone, and a throwing call changes nothing, so
    * in those cases the member keeps its genes. */
  function MutationResult(op: MutationOperator, kind: Kind, s: seq<Gene>, fitness: real, d: MutationDraw): (t: seq<Gene>)
    requires AllFit(kind, s) && AllSet(s) && MutationDrawFits(op, kind, |s|, d)
  {
    if MutationThrows(op, |s|) then s else
    match op
    case SinglePointMutation =>
      if Stuck(kind, s) then s else
      GeneDrawsSuffice(kind, |s|, s[d.point1], d.geneDraws[0]);
      MutatedAt(kind, s, d.point1, d.geneDraws[0])
    case TwoPointMutation =>
      RedrawNeedsTwoPositions(|s|, d.point1, d.redraws);
      var point2 := Redrawn(|s|, d.point1, d.redraws);
      GeneDrawsSuffice(kind, |s|, s[d.point1], d.geneDraws[0]);
      GeneDrawsSuffice(kind, |s|, s[point2], d.geneDraws[1]);
      TwoPointChanges(kind, s, d.point1, point2, d.geneDraws[0], d.geneDraws[1]);
      MutatedAt(kind, MutatedAt(kind, s, d.point1, d.geneDraws[0]), point2, d.geneDraws[1])
    case SwapMutation => SwapGenes(s, d.point1, d.redraws)
    case ScrambleMutation =>
      ScramblePermutes(s, d.point1, d.endDraws, d.shuffleDraws);
      ScrambleGenes(s, d.point1, d.endDraws, d.shuffleDraws).value
    case BiasedMutation =>
      var chosen := BiasedChoice(fitness, d.doubles);
      if Stuck(kind, s) && chosen[0] then s else
      GeneDrawsWhere(kind, s, chosen, d.geneDraws);
      MutatedWhere(kind, s, chosen, d.geneDraws)
    case NonUniformMutation(_) => s
  }

  /** Reordering set genes of one representation keeps them so. */
  lemma ReorderedKeepsShape(kind: Kind, s: seq<Gene>, t: seq<Gene>)
    requires multiset(t) == multiset(s) && AllFit(kind, s) && AllSet(s)
    ensures |t| == |s| && AllFit(kind, t) && AllSet(t)
  {
    assert |t| == |multiset(t)| == |s|;
    forall i | 0 <= i < |t|
      ensures Fits(kind, t[i]) && t[i] != Null
    {
      assert t[i] in multiset(s);
    }
  }

  /** Every mutation keeps a set chromosome set and of its representation,
    * and the swap and scramble mutations only reorder its genes. */
  lemma MutationKeepsShape(op: MutationOperator, kind: Kind, s: seq<Gene>, fitness: real, d: MutationDraw)
    requires AllFit(kind, s) && AllSet(s) && MutationDrawFits(op, kind, |s|, d)
    ensures var t := MutationResult(op, kind, s, fitness, d);
      |t| == |s| && AllFit(kind, t) && AllSet(t)
    ensures op.SwapMutation? || op.ScrambleMutation? ==>
      multiset(MutationResult(op, kind, s, fitness, d)) == multiset(s)
  {
    var t := MutationResult(op, kind, s, fitness, d);
    if MutationThrows(op, |s|) {
      return;
    }
    match op {
      case SinglePointMutation =>
        if !Stuck(kind, s) {
          PointMutationKeepsShape(kind, s, d);
        }
      case TwoPointMutation =>
        TwoPointMutationKeepsShape(kind, s, d);
      case SwapMutation =>
        SwapGenesPermutes(s, d.point1, d.redraws);
        ReorderedKeepsShape(kind, s, t);
      case ScrambleMutation =>
        ScramblePermutes(s, d.point1, d.endDraws, d.shuffleDraws);
        ReorderedKeepsShape(kind, s, t);
      case BiasedMutation =>
        var chosen := BiasedChoice(fitness, d.doubles);
        if !(Stuck(kind, s) && chosen[0]) {
          GeneDrawsWhere(kind, s, chosen, d.geneDraws);
          MutatedWhereFits(kind, s, chosen, d.geneDraws);
        }
      case NonUniformMutation(_) =>
    }
  }

  /** The single point case of `MutationKeepsShape`. */
  lemma PointMutationKeepsShape(kind: Kind, s: seq<Gene>, d: MutationDraw)
    requires AllFit(kind, s) && AllSet(s) && |s| > 0 && !Stuck(kind, s)
    requires MutationDrawFits(SinglePointMutation, kind, |s|, d)
    ensures var t := MutationResult(SinglePointMutation, kind, s, 0.0, d);
      |t| == |s| && AllFit(kind, t) && AllSet(t)
  {
    assert kind.Decimal? && |s| == 1 ==> s == [s[d.point1]];
    GeneDrawsSuffice(kind, |s|, s[d.point1], d.geneDraws[0]);
    MutatedDomain(kind, |s|, s[d.point1], d.geneDraws[0]);
  }

  /** The two point case of `MutationKeepsShape`. */
  lemma TwoPointMutationKeepsShape(kind: Kind, s: seq<Gene>, d: MutationDraw)
    requires AllFit(kind, s) && AllSet(s) && |s| > 0 && MutationDrawFits(TwoPointMutation, kind, |s|, d)
    ensures var t := MutationResult(TwoPointMutation, kind, s, 0.0, d);
      |t| == |s| && AllFit(kind, t) && AllSet(t)
  {
    RedrawNeedsTwoPositions(|s|, d.point1, d.redraws);
    var point2 := Redrawn(|s|, d.point1, d.redraws);
    GeneDrawsSuffice(kind, |s|, s[d.point1], d.geneDraws[0]);
    GeneDrawsSuffice(kind, |s|, s[point2], d.geneDraws[1]);
    TwoPointChanges(kind, s, d.point1, point2, d.geneDraws[0], d.geneDraws[1]);
    var u := MutatedAt(kind, s, d.point1, d.geneDraws[0]);
    MutatedDomain(kind, |s|, s[d.point1], d.geneDraws[0]);
    MutatedDomain(kind, |s|, u[point2], d.geneDraws[1]);
  }

  /** The objects a mutation operator changes: the counter of a
    * non-uniform mutation. */
  function MutationState(op: MutationOperator): set<object>
  {
    match op
    case NonUniformMutation(nu) => {nu}
    case _ => {}
  }

  /** One `mutate` call on `chromosome`. Every operator but non-uniform
    * mutation changes the chromosome in place and returns it; non-uniform
    * mutation returns a mutated clone and leaves the chromosome alone; a
    * point mutation of a chromosome without genes throws, and a call that
    * would mutate a stuck gene never returns. */
  method Mutate(op: MutationOperator, chromosome: Chromosome, d: MutationDraw) returns (r: Outcome<Chromosome>)
    requires chromosome.Ready() && MutationDrawFits(op, chromosome.kind, chromosome.genes.Length, d)
    modifies chromosome.genes
    ensures chromosome.Ready()
    ensures chromosome.genes[..] ==
      MutationResult(op, chromosome.kind, old(chromosome.genes[..]), chromosome.fitness, d)
    ensures MutationThrows(op, chromosome.genes.Length) <==> r == Thrown(IllegalArgument(BoundMessage))
    ensures old(MutationHangs(op, chromosome.kind, chromosome.genes[..], chromosome.fitness, d)) <==> r == Thrown(NoReturn)
    ensures r.Ok? || r == Thrown(IllegalArgument(BoundMessage)) || r == Thrown(NoReturn)
    ensures r.Ok? && !op.NonUniformMutation? ==> r == Ok(chromosome)
    ensures r.Ok? && op.NonUniformMutation? ==>
      && r.Ok? && fresh(r.value) && r.value.kind == chromosome.kind && r.value.Ready()
      && r.value.genes[..] == MutatedWhere(chromosome.kind, chromosome.genes[..],
        NonUniformChoice(op.nonUniform.MutationProbability(), d.doubles), d.geneDraws)
  {
    var kind, n := chromosome.kind, chromosome.genes.Length;
    ghost var s := chromosome.genes[..];
    MutationKeepsShape(op, kind, s, chromosome.fitness, d);
    if MutationHangs(op, kind, chromosome.genes[..], chromosome.fitness, d) {
      return Thrown(NoReturn);
    }
    match op {
      case SinglePointMutation =>
        if n > 0 {
          assert kind.Decimal? && n == 1 ==> s == [s[d.point1]];
          GeneDrawsSuffice(kind, n, s[d.point1], d.geneDraws[0]);
        }
        r := SinglePointMutate(chromosome, d.point1, if n > 0 then d.geneDraws[0] else []);
      case TwoPointMutation =>
        if n > 0 {
          RedrawNeedsTwoPositions(n, d.point1, d.redraws);
          var point2 := Redrawn(n, d.point1, d.redraws);
          GeneDrawsSuffice(kind, n, s[d.point1], d.geneDraws[0]);
          GeneDrawsSuffice(kind, n, s[point2], d.geneDraws[1]);
          r := TwoPointMutate(chromosome, d.point1, d.redraws, d.geneDraws[0], d.geneDraws[1]);
        } else {
          r := TwoPointMutate(chromosome, d.point1, d.redraws, [], []);
        }
      case SwapMutation =>
        var c := SwapPair(chromosome, d.point1, d.redraws);
        r := Ok(c);
      case ScrambleMutation =>
        ScramblePermutes(s, d.point1, d.endDraws, d.shuffleDraws);
        var o := Scramble(chromosome, d.point1, d.endDraws, d.shuffleDraws);
        r := Ok(o.value);
      case BiasedMutation =>
        GeneDrawsWhere(kind, s, BiasedChoice(chromosome.fitness, d.doubles), d.geneDraws);
        var c := Biased(chromosome, d.doubles, d.geneDraws);
        r := Ok(c);
      case NonUniformMutation(nu) =>
        GeneDrawsWhere(kind, s, NonUniformChoice(nu.MutationProbability(), d.doubles), d.geneDraws);
        var c := nu.Mutate(chromosome, d.doubles, d.geneDraws);
        r := Ok(c);
    }
  }
}
