/**
 * The six mutation operators. Every one but the non-uniform mutation
 * changes the chromosome it is given in place and returns that same
 * chromosome; the non-uniform mutation works on a clone. Random draws are
 * parameters: an index draw is an int, a `nextDouble()` a real in [0, 1),
 * and the draws one `mutateGen` call consumes a `seq<int>`.
 */
module Mutations {
  import opened Common
  import opened Chromosomes

  // ---------------------------------------------------------------------
  // Shared specification

  /** `s` after `mutateGen(p)`. */
  function MutatedAt(kind: Kind, s: seq<Gene>, p: int, draws: seq<int>): (t: seq<Gene>)
    requires 0 <= p < |s| && MutateDraws(kind, |s|, s[p], draws)
    ensures |t| == |s|
  {
    s[p := Mutated(kind, |s|, s[p], draws)]
  }

  /** The positions where two gene lists of one length differ. */
  function Changed(s: seq<Gene>, t: seq<Gene>): set<int>
    requires |s| == |t|
  {
    set i | 0 <= i < |s| && s[i] != t[i]
  }

  /** One `mutateGen` changes at most the gene it is called on, and a
    * binary or decimal one always changes it. */
  lemma MutatedAtChanges(kind: Kind, s: seq<Gene>, p: int, draws: seq<int>)
    requires 0 <= p < |s| && MutateDraws(kind, |s|, s[p], draws)
    ensures Changed(s, MutatedAt(kind, s, p, draws)) <= {p}
    ensures !kind.Letters? ==> Changed(s, MutatedAt(kind, s, p, draws)) == {p}
  {
    MutatedDomain(kind, |s|, s[p], draws);
  }

  /** The draws for mutating the chosen genes of `s`, one list per gene. */
  predicate WhereDraws(kind: Kind, s: seq<Gene>, chosen: seq<bool>, draws: seq<seq<int>>)
  {
    && |chosen| == |s| && |draws| == |s|
    && forall i :: 0 <= i < |s| && chosen[i] ==> MutateDraws(kind, |s|, s[i], draws[i])
  }

  /** `s` after `mutateGen(i)` on every chosen position, in increasing
    * order; no position is mutated twice, so each call sees the original
    * gene. */
  function MutatedWhere(kind: Kind, s: seq<Gene>, chosen: seq<bool>, draws: seq<seq<int>>): (t: seq<Gene>)
    requires WhereDraws(kind, s, chosen, draws)
    ensures |t| == |s|
  {
    seq(|s|, i requires 0 <= i < |s| => if chosen[i] then Mutated(kind, |s|, s[i], draws[i]) else s[i])
  }

  /** Each gene is either left alone or replaced by its one mutation:
    * exactly the chosen genes of a binary or decimal chromosome change. */
  lemma MutatedWhereChanges(kind: Kind, s: seq<Gene>, chosen: seq<bool>, draws: seq<seq<int>>)
    requires WhereDraws(kind, s, chosen, draws)
    ensures forall i :: 0 <= i < |s| ==>
      MutatedWhere(kind, s, chosen, draws)[i] == (if chosen[i] then Mutated(kind, |s|, s[i], draws[i]) else s[i])
    ensures Changed(s, MutatedWhere(kind, s, chosen, draws)) <= set i | 0 <= i < |s| && chosen[i]
    ensures !kind.Letters? ==>
      Changed(s, MutatedWhere(kind, s, chosen, draws)) == set i | 0 <= i < |s| && chosen[i]
  {
    var t := MutatedWhere(kind, s, chosen, draws);
    forall i | 0 <= i < |s| && chosen[i]
      ensures Fits(kind, t[i]) && (!kind.Letters? ==> t[i] != s[i])
    {
      MutatedDomain(kind, |s|, s[i], draws[i]);
    }
  }

  /** Mutating the chosen genes keeps the representation's types, and
    * mutating none of them changes nothing. */
  lemma MutatedWhereFits(kind: Kind, s: seq<Gene>, chosen: seq<bool>, draws: seq<seq<int>>)
    requires WhereDraws(kind, s, chosen, draws)
    ensures AllFit(kind, s) ==> AllFit(kind, MutatedWhere(kind, s, chosen, draws))
    ensures AllSet(s) ==> AllSet(MutatedWhere(kind, s, chosen, draws))
    ensures (forall i :: 0 <= i < |s| ==> !chosen[i]) ==> MutatedWhere(kind, s, chosen, draws) == s
  {
    forall i | 0 <= i < |s| && chosen[i]
      ensures Fits(kind, Mutated(kind, |s|, s[i], draws[i])) && Mutated(kind, |s|, s[i], draws[i]) != Null
    {
      MutatedDomain(kind, |s|, s[i], draws[i]);
    }
  }

  // ---------------------------------------------------------------------
  // Single point mutation

  /** `mutationPoint` is the drawn position, in [0, length). A chromosome
    * without genes gives the exception of a draw below 0. */
  method SinglePointMutate(chromosome: Chromosome, mutationPoint: int, draws: seq<int>) returns (r: Outcome<Chromosome>)
    requires chromosome.genes.Length > 0 ==>
      && 0 <= mutationPoint < chromosome.genes.Length
      && MutateDraws(chromosome.kind, chromosome.genes.Length, chromosome.genes[mutationPoint], draws)
    modifies chromosome.genes
    ensures chromosome.genes.Length == 0 ==> r == Thrown(IllegalArgument(BoundMessage))
    ensures chromosome.genes.Length > 0 ==>
      && r == Ok(chromosome)
      && chromosome.genes[..] == MutatedAt(chromosome.kind, old(chromosome.genes[..]), mutationPoint, draws)
    ensures old(chromosome.Valid()) ==> chromosome.Valid()
    ensures old(chromosome.Ready()) ==> chromosome.Ready()
  {
    if chromosome.genes.Length == 0 {
      return Thrown(IllegalArgument(BoundMessage));
    }
    chromosome.MutateGen(mutationPoint, draws);
    r := Ok(chromosome);
  }

  // ---------------------------------------------------------------------
  // Two point mutation

  /** The second mutation sees the gene the first one left in place, which
    * is the original: the points differ, so exactly the two points of a
    * binary or decimal chromosome change. */
  lemma TwoPointChanges(kind: Kind, s: seq<Gene>, point1: int, point2: int, draws1: seq<int>, draws2: seq<int>)
    requires 0 <= point1 < |s| && 0 <= point2 < |s| && point1 != point2
    requires MutateDraws(kind, |s|, s[point1], draws1) && MutateDraws(kind, |s|, s[point2], draws2)
    ensures MutateDraws(kind, |s|, MutatedAt(kind, s, point1, draws1)[point2], draws2)
    ensures var t := MutatedAt(kind, MutatedAt(kind, s, point1, draws1), point2, draws2);
      && Changed(s, t) <= {point1, point2}
      && (!kind.Letters? ==> Changed(s, t) == {point1, point2})
  {
    var u := MutatedAt(kind, s, point1, draws1);
    MutatedDomain(kind, |s|, s[point1], draws1);
    MutatedDomain(kind, |s|, u[point2], draws2);
  }

  /** `point1` is the first draw and `redraws` the draws of the second
    * point, taken until one differs from the first. A chromosome without
    * genes gives the exception of a draw below 0. */
  method TwoPointMutate(chromosome: Chromosome, point1: int, redraws: seq<int>, draws1: seq<int>, draws2: seq<int>)
    returns (r: Outcome<Chromosome>)
    requires chromosome.genes.Length > 0 ==>
      && RedrawDraws(chromosome.genes.Length, point1, redraws)
      && MutateDraws(chromosome.kind, chromosome.genes.Length, chromosome.genes[point1], draws1)
      && MutateDraws(chromosome.kind, chromosome.genes.Length,
        chromosome.genes[Redrawn(chromosome.genes.Length, point1, redraws)], draws2)
    modifies chromosome.genes
    ensures chromosome.genes.Length == 0 ==> r == Thrown(IllegalArgument(BoundMessage))
    ensures chromosome.genes.Length > 0 ==>
      && r == Ok(chromosome)
      && chromosome.genes[..] ==
        var point2 := Redrawn(chromosome.genes.Length, point1, redraws);
        MutatedAt(chromosome.kind, MutatedAt(chromosome.kind, old(chromosome.genes[..]), point1, draws1), point2, draws2)
    ensures old(chromosome.Valid()) ==> chromosome.Valid()
    ensures old(chromosome.Ready()) ==> chromosome.Ready()
  {
    if chromosome.genes.Length == 0 {
      return Thrown(IllegalArgument(BoundMessage));
    }
    var mutationPoint1 := point1;
    var k := 0;
    var mutationPoint2 := redraws[k];
    while mutationPoint1 == mutationPoint2
      invariant 0 <= k <= FirstDifferent(redraws, point1) && mutationPoint2 == redraws[k]
      decreases FirstDifferent(redraws, point1) - k
    {
      k := k + 1;
      mutationPoint2 := redraws[k];
    }
    chromosome.MutateGen(mutationPoint1, draws1);
    chromosome.MutateGen(mutationPoint2, draws2);
    r := Ok(chromosome);
  }

  // ---------------------------------------------------------------------
  // Swap mutation

  /** The exchange moves the two genes and nothing else, and keeps the
    * genes the chromosome holds. */
  lemma SwapExchanges(s: seq<Gene>, index1: int, index2: int)
    requires 0 <= index1 < |s| && 0 <= index2 < |s|
    ensures Swap(s, index1, index2)[index1] == s[index2] && Swap(s, index1, index2)[index2] == s[index1]
    ensures Changed(s, Swap(s, index1, index2)) <= {index1, index2}
    ensures multiset(Swap(s, index1, index2)) == multiset(s)
  {
    SwapPermutes(s, index1, index2);
  }

  /** The genes after the swap mutation: unchanged below two genes, else
    * the first drawn index exchanged with the redrawn second one. */
  function SwapGenes(s: seq<Gene>, index1: int, redraws: seq<int>): (t: seq<Gene>)
    requires |s| >= 2 ==> RedrawDraws(|s|, index1, redraws)
    ensures |t| == |s|
  {
    if |s| < 2 then s else Swap(s, index1, Redrawn(|s|, index1, redraws))
  }

  /** A swap mutation is a permutation of the genes. */
  lemma SwapGenesPermutes(s: seq<Gene>, index1: int, redraws: seq<int>)
    requires |s| >= 2 ==> RedrawDraws(|s|, index1, redraws)
    ensures multiset(SwapGenes(s, index1, redraws)) == multiset(s)
    ensures |s| >= 2 ==> Changed(s, SwapGenes(s, index1, redraws)) <= {index1, Redrawn(|s|, index1, redraws)}
  {
    if |s| >= 2 {
      SwapExchanges(s, index1, Redrawn(|s|, index1, redraws));
    }
  }

  /** `index1` is the first draw and `redraws` the draws of the second
    * index; neither is taken when there are fewer than two genes. Fitness
    * and parent flag are untouched. */
  method SwapPair(chromosome: Chromosome, index1: int, redraws: seq<int>) returns (r: Chromosome)
    requires chromosome.Valid()
    requires chromosome.genes.Length >= 2 ==> RedrawDraws(chromosome.genes.Length, index1, redraws)
    modifies chromosome.genes
    ensures r == chromosome
    ensures chromosome.genes[..] == SwapGenes(old(chromosome.genes[..]), index1, redraws)
    ensures chromosome.Valid()
  {
    var length := chromosome.genes.Length;
    if length < 2 {
      return chromosome;
    }
    var k := 0;
    var index2 := redraws[k];
    while index1 == index2
      invariant 0 <= k <= FirstDifferent(redraws, index1) && index2 == redraws[k]
      decreases FirstDifferent(redraws, index1) - k
    {
      k := k + 1;
      index2 := redraws[k];
    }
    var gene1 := chromosome.genes[index1];
    var gene2 := chromosome.genes[index2];
    var _ := chromosome.SetGen(index1, gene2);
    var _ := chromosome.SetGen(index2, gene1);
    r := chromosome;
  }

  // ---------------------------------------------------------------------
  // Scramble mutation

  /** The draws of the scramble mutation once there are two genes: the
    * start in [0, length), the end draws in [start, length) taken while
    * they equal the start, and the shuffle of the segment between them. */
  predicate ScrambleDraws(length: int, start: int, endDraws: seq<int>, shuffleDraws: seq<int>)
  {
    && 0 <= start < length
    && (forall k :: 0 <= k < |endDraws| ==> start <= endDraws[k] < length)
    && (exists k :: 0 <= k < |endDraws| && endDraws[k] != start)
    && ShuffleDraws(endDraws[FirstDifferent(endDraws, start)] - start + 1, shuffleDraws)
  }

  /** Where the end-point loop stops: the first end draw past the start. */
  function ScrambleEnd(length: int, start: int, endDraws: seq<int>, shuffleDraws: seq<int>): (end: int)
    requires ScrambleDraws(length, start, endDraws, shuffleDraws)
    ensures start < end < length
  {
    endDraws[FirstDifferent(endDraws, start)]
  }

  /** The end is drawn from [start, length) until it differs from the
    * start, which can only happen when the start leaves room after it. */
  lemma ScrambleNeedsRoom(length: int, start: int, endDraws: seq<int>)
    requires 0 <= start < length
    requires forall k :: 0 <= k < |endDraws| ==> start <= endDraws[k] < length
    requires exists k :: 0 <= k < |endDraws| && endDraws[k] != start
    ensures start <= length - 2
  {
    var k :| 0 <= k < |endDraws| && endDraws[k] != start;
  }

  /** The segment after Collections.shuffle; a two-gene segment the
    * shuffle left in place is swapped after all. The comparison
    * dereferences the shuffled first gene, and the second one when the
    * first matches, so an unset gene there throws. */
  function Scrambled(seg: seq<Gene>, shuffleDraws: seq<int>): (r: Outcome<seq<Gene>>)
    requires ShuffleDraws(|seg|, shuffleDraws)
    ensures r.Ok? ==> |r.value| == |seg|
  {
    var t := Shuffle(seg, shuffleDraws);
    if |seg| != 2 then Ok(t)
    else if t[0] == Null then Thrown(NullPointer(""))
    else if t[0] != seg[0] then Ok(t)
    else if t[1] == Null then Thrown(NullPointer(""))
    else if t[1] == seg[1] then Ok(Swap(t, 0, 1))
    else Ok(t)
  }

  /** The scrambled segment is a permutation of the segment; only a
    * two-gene segment with an unset gene throws. */
  lemma ScrambledPermutes(seg: seq<Gene>, shuffleDraws: seq<int>)
    requires ShuffleDraws(|seg|, shuffleDraws)
    ensures Scrambled(seg, shuffleDraws).Ok? ==> multiset(Scrambled(seg, shuffleDraws).value) == multiset(seg)
    ensures Scrambled(seg, shuffleDraws).Thrown? ==> |seg| == 2 && !AllSet(seg)
  {
    var t := Shuffle(seg, shuffleDraws);
    ShufflePermutes(seg, shuffleDraws);
    if |seg| == 2 {
      SwapPermutes(t, 0, 1);
      assert t[0] in multiset(seg) && t[1] in multiset(seg);
    }
  }

  /** Scrambling keeps the representation's types. */
  lemma ScrambledFits(kind: Kind, seg: seq<Gene>, shuffleDraws: seq<int>)
    requires ShuffleDraws(|seg|, shuffleDraws) && AllFit(kind, seg)
    ensures Scrambled(seg, shuffleDraws).Ok? ==> AllFit(kind, Scrambled(seg, shuffleDraws).value)
  {
    ScrambledPermutes(seg, shuffleDraws);
    if Scrambled(seg, shuffleDraws).Ok? {
      var r := Scrambled(seg, shuffleDraws).value;
      forall i | 0 <= i < |r|
        ensures Fits(kind, r[i])
      {
        assert r[i] in multiset(seg);
      }
    }
  }

  /** A scrambled two-gene segment always ends up exchanged, whichever
    * way the shuffle went. */
  lemma ScrambledTwoExchanges(seg: seq<Gene>, shuffleDraws: seq<int>)
    requires |seg| == 2 && AllSet(seg) && ShuffleDraws(2, shuffleDraws)
    ensures Scrambled(seg, shuffleDraws) == Ok([seg[1], seg[0]])
  {
    var swapped := Swap(seg, 1, shuffleDraws[0]);
    assert Shuffle(swapped[..1], shuffleDraws[1..]) == swapped[..1];
    assert Shuffle(seg, shuffleDraws) == [swapped[0], swapped[1]];
    if shuffleDraws[0] == 1 {
      assert swapped == seg;
      assert Shuffle(seg, shuffleDraws) == seg;
      assert Swap(seg, 0, 1) == [seg[1], seg[0]];
    } else {
      assert swapped == [seg[1], seg[0]];
      if seg[0] == seg[1] {
        assert Swap(swapped, 0, 1) == [seg[1], seg[0]];
      }
    }
  }

  /** `s` with `seg` written over it from `start` on. */
  function Overwrite(s: seq<Gene>, start: int, seg: seq<Gene>): (t: seq<Gene>)
    requires 0 <= start && start + |seg| <= |s|
    ensures |t| == |s|
  {
    seq(|s|, j requires 0 <= j < |s| => if start <= j < start + |seg| then seg[j - start] else s[j])
  }

  /** The genes after the scramble mutation. */
  function ScrambleGenes(s: seq<Gene>, start: int, endDraws: seq<int>, shuffleDraws: seq<int>): Outcome<seq<Gene>>
    requires |s| >= 2 ==> ScrambleDraws(|s|, start, endDraws, shuffleDraws)
  {
    if |s| < 2 then Ok(s)
    else
      var end := ScrambleEnd(|s|, start, endDraws, shuffleDraws);
      match Scrambled(s[start..end + 1], shuffleDraws)
      case Ok(seg) => Ok(Overwrite(s, start, seg))
      case Thrown(e) => Thrown(e)
  }

  /** The scramble mutation leaves the genes outside [start, end] alone
    * and permutes the genes; it throws only on a two-gene segment with an
    * unset gene, and a set two-gene segment is always exchanged. */
  lemma ScramblePermutes(s: seq<Gene>, start: int, endDraws: seq<int>, shuffleDraws: seq<int>)
    requires |s| >= 2 ==> ScrambleDraws(|s|, start, endDraws, shuffleDraws)
    ensures AllSet(s) ==> ScrambleGenes(s, start, endDraws, shuffleDraws).Ok?
    ensures ScrambleGenes(s, start, endDraws, shuffleDraws).Ok? ==>
      var t := ScrambleGenes(s, start, endDraws, shuffleDraws).value;
      && |t| == |s| && multiset(t) == multiset(s)
      && (|s| >= 2 ==> forall j :: 0 <= j < |s| && !(start <= j <= ScrambleEnd(|s|, start, endDraws, shuffleDraws)) ==> t[j] == s[j])
    ensures |s| >= 2 && AllSet(s) && ScrambleEnd(|s|, start, endDraws, shuffleDraws) == start + 1 ==>
      ScrambleGenes(s, start, endDraws, shuffleDraws) == Ok(Swap(s, start, start + 1))
  {
    if |s| >= 2 {
      var end := ScrambleEnd(|s|, start, endDraws, shuffleDraws);
      var seg := s[start..end + 1];
      ScrambledPermutes(seg, shuffleDraws);
      if AllSet(s) {
        assert AllSet(seg);
      }
      if Scrambled(seg, shuffleDraws).Ok? {
        var t := Overwrite(s, start, Scrambled(seg, shuffleDraws).value);
        assert s == s[..start] + seg + s[end + 1..];
        assert t == s[..start] + Scrambled(seg, shuffleDraws).value + s[end + 1..];
      }
      if AllSet(s) && end == start + 1 {
        ScrambledTwoExchanges(seg, shuffleDraws);
        assert Overwrite(s, start, [seg[1], seg[0]]) == Swap(s, start, start + 1);
      }
    }
  }

  /** `start` is the first draw, `endDraws` the draws of the end point and
    * `shuffleDraws` those of Collections.shuffle; none is taken when there
    * are fewer than two genes. */
  method Scramble(chromosome: Chromosome, start: int, endDraws: seq<int>, shuffleDraws: seq<int>)
    returns (r: Outcome<Chromosome>)
    requires chromosome.Valid()
    requires chromosome.genes.Length >= 2 ==> ScrambleDraws(chromosome.genes.Length, start, endDraws, shuffleDraws)
    modifies chromosome.genes
    ensures chromosome.Valid()
    ensures match ScrambleGenes(old(chromosome.genes[..]), start, endDraws, shuffleDraws)
      case Ok(genes) => r == Ok(chromosome) && chromosome.genes[..] == genes
      case Thrown(e) => r == Thrown(e) && chromosome.genes[..] == old(chromosome.genes[..])
  {
    var length := chromosome.genes.Length;
    if length < 2 {
      return Ok(chromosome);
    }
    var k := 0;
    var end := endDraws[k];
    while start == end
      invariant 0 <= k <= FirstDifferent(endDraws, start) && end == endDraws[k]
      decreases FirstDifferent(endDraws, start) - k
    {
      k := k + 1;
      end := endDraws[k];
    }
    var subGenes := CopySegment(chromosome, start, end);
    ghost var seg := subGenes;
    subGenes := Shuffle(subGenes, shuffleDraws);
    if |subGenes| == 2 {
      if subGenes[0] == Null {
        return Thrown(NullPointer(""));
      }
      if subGenes[0] == chromosome.genes[start] {
        if subGenes[1] == Null {
          return Thrown(NullPointer(""));
        }
        if subGenes[1] == chromosome.genes[end] {
          subGenes := Swap(subGenes, 0, 1);
        }
      }
    }
    assert Scrambled(seg, shuffleDraws) == Ok(subGenes);
    ScrambledFits(chromosome.kind, seg, shuffleDraws);
    WriteSegment(chromosome, start, subGenes);
    r := Ok(chromosome);
  }

  /** The genes on [start, end], in order. */
  method CopySegment(chromosome: Chromosome, start: int, end: int) returns (subGenes: seq<Gene>)
    requires 0 <= start <= end < chromosome.genes.Length
    ensures subGenes == chromosome.genes[start..end + 1]
  {
    subGenes := [];
    for i := start to end + 1
      invariant subGenes == chromosome.genes[start..i]
    {
      subGenes := subGenes + [chromosome.genes[i]];
    }
  }

  /** Writes `subGenes` back from `start` on through `setGen`. */
  method WriteSegment(chromosome: Chromosome, start: int, subGenes: seq<Gene>)
    requires chromosome.Valid() && AllFit(chromosome.kind, subGenes)
    requires 0 <= start && start + |subGenes| <= chromosome.genes.Length
    modifies chromosome.genes
    ensures chromosome.genes[..] == Overwrite(old(chromosome.genes[..]), start, subGenes)
    ensures chromosome.Valid()
  {
    ghost var s := chromosome.genes[..];
    for i := start to start + |subGenes|
      invariant forall j :: 0 <= j < |s| ==>
        chromosome.genes[j] == (if start <= j < i then subGenes[j - start] else s[j])
      invariant chromosome.Valid()
    {
      var _ := chromosome.SetGen(i, subGenes[i - start]);
    }
    assert chromosome.genes[..] == Overwrite(s, start, subGenes);
  }

  // ---------------------------------------------------------------------
  // Biased mutation

  /** Whether `nextDouble()` falls below 1 / (fitness + 1). A fitness of
    * -1 divides by zero, which yields positive infinity: every draw is
    * below it. */
  predicate Below(draw: real, fitness: real)
  {
    fitness + 1.0 == 0.0 || draw < 1.0 / (fitness + 1.0)
  }

  /** The genes the biased mutation picks, one draw per gene, against the
    * probability computed once from the fitness. */
  function BiasedChoice(fitness: real, draws: seq<real>): (chosen: seq<bool>)
    ensures |chosen| == |draws|
  {
    seq(|draws|, i requires 0 <= i < |draws| => Below(draws[i], fitness))
  }

  /** A chromosome with fitness 0 has every gene mutated, one with a
    * fitness below -1 none. */
  lemma BiasedExtremes(fitness: real, draws: seq<real>)
    requires forall i :: 0 <= i < |draws| ==> 0.0 <= draws[i] < 1.0
    ensures fitness == 0.0 ==> forall i :: 0 <= i < |draws| ==> BiasedChoice(fitness, draws)[i]
    ensures fitness < -1.0 ==> forall i :: 0 <= i < |draws| ==> !BiasedChoice(fitness, draws)[i]
  {
    if fitness < -1.0 {
      var d := fitness + 1.0;
      var q := 1.0 / d;
      assert q * d == 1.0;
      assert q < 0.0;
    }
  }

  /** A fitter chromosome is mutated at fewer positions: every gene the
    * fitter one has mutated the less fit one has mutated too. */
  lemma BiasedFitterMutatesLess(fitness1: real, fitness2: real, draws: seq<real>)
    requires -1.0 < fitness1 <= fitness2
    ensures forall i :: 0 <= i < |draws| && BiasedChoice(fitness2, draws)[i] ==> BiasedChoice(fitness1, draws)[i]
  {
    var d1, d2 := fitness1 + 1.0, fitness2 + 1.0;
    var q1, q2 := 1.0 / d1, 1.0 / d2;
    assert q1 * d1 == 1.0 && q2 * d2 == 1.0;
  }

  /** `draws` are the `nextDouble()` calls, one per gene, and
    * `mutateDraws` the draws each chosen `mutateGen` consumes. */
  method Biased(chromosome: Chromosome, draws: seq<real>, mutateDraws: seq<seq<int>>) returns (r: Chromosome)
    requires WhereDraws(chromosome.kind, chromosome.genes[..], BiasedChoice(chromosome.fitness, draws), mutateDraws)
    modifies chromosome.genes
    ensures r == chromosome
    ensures chromosome.genes[..] ==
      MutatedWhere(chromosome.kind, old(chromosome.genes[..]), BiasedChoice(chromosome.fitness, draws), mutateDraws)
    ensures old(chromosome.Valid()) ==> chromosome.Valid()
    ensures old(chromosome.Ready()) ==> chromosome.Ready()
  {
    var length := chromosome.genes.Length;
    if length == 0 {
      return chromosome;
    }
    var fitness := chromosome.fitness;
    var infinite := fitness + 1.0 == 0.0;
    var normProb := if infinite then 0.0 else 1.0 / (fitness + 1.0);
    ghost var s := chromosome.genes[..];
    ghost var target := MutatedWhere(chromosome.kind, s, BiasedChoice(fitness, draws), mutateDraws);
    for i := 0 to length
      invariant forall j :: 0 <= j < length ==> chromosome.genes[j] == (if j < i then target[j] else s[j])
      invariant old(chromosome.Valid()) ==> chromosome.Valid()
      invariant old(chromosome.Ready()) ==> chromosome.Ready()
    {
      if infinite || draws[i] < normProb {
        chromosome.MutateGen(i, mutateDraws[i]);
      }
    }
    assert chromosome.genes[..] == target;
    r := chromosome;
  }

  // ---------------------------------------------------------------------
  // Non-uniform mutation

  /** The mutation probability (1 - generation / maxGenerations)^b, or
    * None where the double is NaN: with maxGenerations 0 the quotient is
    * 0.0 / 0, and Math.pow(NaN, b) stays NaN unless b is 0. `pow` stands
    * for Math.pow. */
  function Probability(pow: (real, real) -> real, b: real, generation: int, maxGenerations: int): Option<real>
  {
    if maxGenerations == 0 then (if b == 0.0 then Some(1.0) else None)
    else Some(pow(1.0 - generation as real / maxGenerations as real, b))
  }

  /** The genes picked by one `nextDouble()` per gene; no draw is below
    * NaN. */
  function NonUniformChoice(probability: Option<real>, draws: seq<real>): (chosen: seq<bool>)
    ensures |chosen| == |draws|
  {
    seq(|draws|, i requires 0 <= i < |draws| => probability.Some? && draws[i] < probability.value)
  }

  /** Where Math.pow gives 1 for a base of 1 and 0 for a base of 0 and a
    * positive exponent, every gene is mutated in generation 0 and none
    * once the counter has reached the maximum; without a maximum no gene
    * is ever mutated unless b is 0. */
  lemma ProbabilityEnds(pow: (real, real) -> real, b: real, maxGenerations: int, draws: seq<real>)
    requires forall i :: 0 <= i < |draws| ==> 0.0 <= draws[i] < 1.0
    ensures maxGenerations != 0 && pow(1.0, b) == 1.0 ==>
      forall i :: 0 <= i < |draws| ==> NonUniformChoice(Probability(pow, b, 0, maxGenerations), draws)[i]
    ensures maxGenerations > 0 && b > 0.0 && pow(0.0, b) == 0.0 ==>
      forall i :: 0 <= i < |draws| ==> !NonUniformChoice(Probability(pow, b, maxGenerations, maxGenerations), draws)[i]
    ensures maxGenerations == 0 && b != 0.0 ==>
      forall i :: 0 <= i < |draws| ==> !NonUniformChoice(Probability(pow, b, 0, maxGenerations), draws)[i]
  {
    if maxGenerations != 0 {
      assert maxGenerations as real / maxGenerations as real == 1.0;
    }
  }

  /** The counter after `nextGeneration`: one more, up to the maximum. */
  function NextGenerationOf(generation: int, maxGenerations: int): int
  {
    if generation < maxGenerations then generation + 1 else generation
  }

  /** The counter after `steps` calls of `nextGeneration` from 0. */
  function GenerationAfter(steps: nat, maxGenerations: int): int
  {
    if steps == 0 then 0 else NextGenerationOf(GenerationAfter(steps - 1, maxGenerations), maxGenerations)
  }

  /** The counter climbs by one per generation and then stays at the
    * maximum; with a maximum of 0 or less it stays at 0. */
  lemma {:induction false} GenerationSaturates(steps: nat, maxGenerations: int)
    ensures GenerationAfter(steps, maxGenerations) ==
      if maxGenerations <= 0 then 0 else if steps <= maxGenerations then steps else maxGenerations
  {
    if steps > 0 {
      GenerationSaturates(steps - 1, maxGenerations);
    }
  }

  class NonUniform {
    /** The strength: how fast the probability falls. */
    const b: real
    const maxGenerations: int
    var currentGeneration: int
    /** Math.pow, which this model leaves undefined. */
    const pow: (real, real) -> real

    /** The counter lies in [0, maxGenerations], or stays 0 when the
      * maximum is below 1. */
    ghost predicate Valid()
      reads this
    {
      0 <= currentGeneration && (currentGeneration <= maxGenerations || currentGeneration == 0)
    }

    constructor (b: real, maxGenerations: int, pow: (real, real) -> real)
      ensures this.b == b && this.maxGenerations == maxGenerations && this.pow == pow
      ensures currentGeneration == 0 && Valid()
    {
      this.b := b;
      this.maxGenerations := maxGenerations;
      this.pow := pow;
      currentGeneration := 0;
    }

    /** `mutationProbability()`: NaN, and so None, exactly when the
      * maximum is 0 and b is not; with a maximum of 0 and b of 0 it is
      * Math.pow(NaN, 0), which is 1. */
    function MutationProbability(): (p: Option<real>)
      reads this
      ensures p.None? <==> maxGenerations == 0 && b != 0.0
      ensures maxGenerations == 0 && b == 0.0 ==> p == Some(1.0)
    {
      Probability(pow, b, currentGeneration, maxGenerations)
    }

    /** Mutates a clone: `draws` are the `nextDouble()` calls, one per
      * gene, and `mutateDraws` the draws each chosen `mutateGen`
      * consumes. Neither the argument nor the counter changes. */
    method Mutate(chromosome: Chromosome, draws: seq<real>, mutateDraws: seq<seq<int>>) returns (mutated: Chromosome)
      requires WhereDraws(chromosome.kind, chromosome.genes[..], NonUniformChoice(MutationProbability(), draws), mutateDraws)
      ensures fresh(mutated) && fresh(mutated.genes)
      ensures mutated.kind == chromosome.kind && mutated.fitness == 0.0 && !mutated.isParent
      ensures mutated.genes[..] ==
        MutatedWhere(chromosome.kind, chromosome.genes[..], NonUniformChoice(MutationProbability(), draws), mutateDraws)
      ensures chromosome.Valid() ==> mutated.Valid()
      ensures chromosome.Ready() ==> mutated.Ready()
    {
      mutated := chromosome.Clone();
      ghost var s := chromosome.genes[..];
      ghost var target := MutatedWhere(chromosome.kind, s, NonUniformChoice(MutationProbability(), draws), mutateDraws);
      for i := 0 to chromosome.genes.Length
        invariant forall j :: 0 <= j < |s| ==> mutated.genes[j] == (if j < i then target[j] else s[j])
        invariant chromosome.Valid() ==> mutated.Valid()
        invariant chromosome.Ready() ==> mutated.Ready()
        modifies mutated.genes
      {
        var mutationProb := MutationProbability();
        if mutationProb.Some? && draws[i] < mutationProb.value {
          mutated.MutateGen(i, mutateDraws[i]);
        }
      }
      assert mutated.genes[..] == target;
    }

    method NextGeneration()
      requires Valid()
      modifies this
      ensures currentGeneration == NextGenerationOf(old(currentGeneration), maxGenerations)
      ensures Valid()
    {
      if currentGeneration < maxGenerations {
        currentGeneration := currentGeneration + 1;
      }
    }
  }
}
