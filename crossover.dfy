/**
 * Crossover operators. Each one clones the first parent and overwrites
 * the clone's genes with genes taken or computed from both parents; the
 * parents themselves are only read. The offspring genes of every operator
 * are given by a function of the parents' gene sequences and the draws.
 */
module Crossovers {
  import opened Common
  import opened Chromosomes

  /** Parents an operator accepts: the same representation and length,
    * and every gene of that representation. */
  ghost predicate Mates(p1: Chromosome, p2: Chromosome)
    reads p1.genes, p2.genes
  {
    p1.kind == p2.kind && p1.genes.Length == p2.genes.Length && p1.Valid() && p2.Valid()
  }

  /** A new chromosome shaped like `parent1`: its own gene array, fitness 0,
    * no parent flag, and every gene of the representation. */
  twostate predicate Offspring(parent1: Chromosome, new r: Chromosome)
    reads r, r.genes
  {
    fresh(r) && fresh(r.genes) && r.kind == parent1.kind && r.genes.Length == parent1.genes.Length
    && r.fitness == 0.0 && !r.isParent && r.Valid()
  }

  /** Every gene of `r` is the gene at the same position in one of the parents. */
  predicate FromParents(r: seq<Gene>, p1: seq<Gene>, p2: seq<Gene>)
  {
    |r| == |p1| == |p2| && forall i :: 0 <= i < |r| ==> r[i] == p1[i] || r[i] == p2[i]
  }

  lemma FromParentsFit(kind: Kind, r: seq<Gene>, p1: seq<Gene>, p2: seq<Gene>)
    requires FromParents(r, p1, p2) && AllFit(kind, p1) && AllFit(kind, p2)
    ensures AllFit(kind, r)
  {
  }

  // ---------------------------------------------------------------------
  // Single point

  /** The genes of `p1` before the cut `c` and of `p2` from it on. */
  function SinglePointGenes(p1: seq<Gene>, p2: seq<Gene>, c: int): (r: seq<Gene>)
    requires |p1| == |p2|
    ensures |r| == |p1|
  {
    seq(|p1|, i requires 0 <= i < |p1| => if i < c then p1[i] else p2[i])
  }

  /** Every gene comes from one parent, the last one always from `p2`; a
    * cut at 0 copies `p2`, and equal parents give their own genes. */
  lemma SinglePointProperties(p1: seq<Gene>, p2: seq<Gene>, c: int)
    requires |p1| == |p2| && 0 <= c < |p1|
    ensures FromParents(SinglePointGenes(p1, p2, c), p1, p2)
    ensures SinglePointGenes(p1, p2, c)[|p1| - 1] == p2[|p1| - 1]
    ensures c == 0 ==> SinglePointGenes(p1, p2, c) == p2
    ensures p1 == p2 ==> SinglePointGenes(p1, p2, c) == p1
  {
  }

  /** `crossoverPoint` is the draw in [0, length). Parents without genes
    * give the exception of a draw below 0. */
  method SinglePoint(parent1: Chromosome, parent2: Chromosome, crossoverPoint: int) returns (r: Outcome<Chromosome>)
    requires Mates(parent1, parent2)
    requires parent1.genes.Length > 0 ==> 0 <= crossoverPoint < parent1.genes.Length
    ensures parent1.genes.Length == 0 ==> r == Thrown(IllegalArgument(BoundMessage))
    ensures parent1.genes.Length > 0 ==>
      r.Ok? && Offspring(parent1, r.value)
      && r.value.genes[..] == SinglePointGenes(parent1.genes[..], parent2.genes[..], crossoverPoint)
  {
    var crossed := parent1.Clone();
    var genLength := parent1.genes.Length;
    if genLength == 0 {
      return Thrown(IllegalArgument(BoundMessage));
    }
    ghost var target := SinglePointGenes(parent1.genes[..], parent2.genes[..], crossoverPoint);
    for i := 0 to genLength
      invariant crossed.genes[..i] == target[..i] && crossed.Valid()
      modifies crossed.genes
    {
      if i < crossoverPoint {
        var _ := crossed.SetGen(i, parent1.genes[i]);
      } else {
        var _ := crossed.SetGen(i, parent2.genes[i]);
      }
    }
    assert crossed.genes[..] == crossed.genes[..genLength];
    r := Ok(crossed);
  }

  // ---------------------------------------------------------------------
  // Two point

  /** The genes of `p2` between the two cuts (lower one included, upper
    * one excluded) and of `p1` elsewhere. */
  function TwoPointGenes(p1: seq<Gene>, p2: seq<Gene>, point1: int, point2: int): (r: seq<Gene>)
    requires |p1| == |p2|
    ensures |r| == |p1|
  {
    var lo, hi := if point1 <= point2 then point1 else point2, if point1 <= point2 then point2 else point1;
    seq(|p1|, i requires 0 <= i < |p1| => if lo <= i < hi then p2[i] else p1[i])
  }

  /** With distinct points every gene comes from one parent and the lower
    * point always takes `p2`'s gene. */
  lemma TwoPointProperties(p1: seq<Gene>, p2: seq<Gene>, point1: int, point2: int)
    requires |p1| == |p2| && 0 <= point1 < |p1| && 0 <= point2 < |p1| && point1 != point2
    ensures FromParents(TwoPointGenes(p1, p2, point1, point2), p1, p2)
    ensures var lo := if point1 < point2 then point1 else point2;
      TwoPointGenes(p1, p2, point1, point2)[lo] == p2[lo]
    ensures TwoPointGenes(p1, p2, point1, point2) == TwoPointGenes(p1, p2, point2, point1)
  {
  }

  /** `point1` is the first draw and `redraws` the draws for the second
    * point, taken until one differs from the first. Parents without genes
    * give the exception of a draw below 0. */
  method TwoPoint(parent1: Chromosome, parent2: Chromosome, point1: int, redraws: seq<int>)
    returns (r: Outcome<Chromosome>)
    requires Mates(parent1, parent2)
    requires parent1.genes.Length > 0 ==> RedrawDraws(parent1.genes.Length, point1, redraws)
    ensures parent1.genes.Length == 0 ==> r == Thrown(IllegalArgument(BoundMessage))
    ensures parent1.genes.Length > 0 ==>
      r.Ok? && Offspring(parent1, r.value)
      && r.value.genes[..] ==
        TwoPointGenes(parent1.genes[..], parent2.genes[..], point1, Redrawn(parent1.genes.Length, point1, redraws))
  {
    var crossed := parent1.Clone();
    var geneLength := parent1.genes.Length;
    if geneLength == 0 {
      return Thrown(IllegalArgument(BoundMessage));
    }
    var crossPoint1 := point1;
    var k := 0;
    var crossPoint2 := redraws[k];
    while crossPoint1 == crossPoint2
      invariant 0 <= k <= FirstDifferent(redraws, point1) && crossPoint2 == redraws[k]
      decreases FirstDifferent(redraws, point1) - k
    {
      k := k + 1;
      crossPoint2 := redraws[k];
    }
    ghost var target := TwoPointGenes(parent1.genes[..], parent2.genes[..], crossPoint1, crossPoint2);
    if crossPoint1 > crossPoint2 {
      var temp := crossPoint1;
      crossPoint1 := crossPoint2;
      crossPoint2 := temp;
    }
    for i := 0 to geneLength
      invariant crossed.genes[..i] == target[..i] && crossed.Valid()
      modifies crossed.genes
    {
      if i >= crossPoint1 && i < crossPoint2 {
        var _ := crossed.SetGen(i, parent2.genes[i]);
      } else {
        var _ := crossed.SetGen(i, parent1.genes[i]);
      }
    }
    assert crossed.genes[..] == crossed.genes[..geneLength];
    r := Ok(crossed);
  }

  // ---------------------------------------------------------------------
  // Probability

  /** Position `i` takes `p1`'s gene when its draw is below `probability`,
    * `p2`'s otherwise. */
  function ProbabilityGenes(p1: seq<Gene>, p2: seq<Gene>, probability: real, draws: seq<real>): (r: seq<Gene>)
    requires |p1| == |p2| == |draws|
    ensures |r| == |p1|
  {
    seq(|p1|, i requires 0 <= i < |p1| => if draws[i] < probability then p1[i] else p2[i])
  }

  /** Every gene comes from one parent; since draws lie in [0, 1), a
    * probability of at least 1 copies `p1` and one of at most 0 copies `p2`. */
  lemma ProbabilityProperties(p1: seq<Gene>, p2: seq<Gene>, probability: real, draws: seq<real>)
    requires |p1| == |p2| == |draws|
    requires forall i :: 0 <= i < |draws| ==> 0.0 <= draws[i] < 1.0
    ensures FromParents(ProbabilityGenes(p1, p2, probability, draws), p1, p2)
    ensures probability >= 1.0 ==> ProbabilityGenes(p1, p2, probability, draws) == p1
    ensures probability <= 0.0 ==> ProbabilityGenes(p1, p2, probability, draws) == p2
  {
  }

  class ProbabilityCrossover {
    const probability: real

    constructor (probability: real)
      ensures this.probability == probability
    {
      this.probability := probability;
    }

    /** `draws` holds one draw in [0, 1) per gene, in index order. */
    method Crossover(parent1: Chromosome, parent2: Chromosome, draws: seq<real>) returns (crossed: Chromosome)
      requires Mates(parent1, parent2) && |draws| == parent1.genes.Length
      requires forall i :: 0 <= i < |draws| ==> 0.0 <= draws[i] < 1.0
      ensures Offspring(parent1, crossed)
      ensures crossed.genes[..] == ProbabilityGenes(parent1.genes[..], parent2.genes[..], probability, draws)
    {
      crossed := parent1.Clone();
      ghost var target := ProbabilityGenes(parent1.genes[..], parent2.genes[..], probability, draws);
      for i := 0 to parent1.genes.Length
        invariant crossed.genes[..i] == target[..i] && crossed.Valid()
      modifies crossed.genes
      {
        if draws[i] < probability {
          var _ := crossed.SetGen(i, parent1.genes[i]);
        } else {
          var _ := crossed.SetGen(i, parent2.genes[i]);
        }
      }
      assert crossed.genes[..] == crossed.genes[..parent1.genes.Length];
    }
  }

  // ---------------------------------------------------------------------
  // Gene arithmetic shared by noise reduction and eccentric crossover

  const IntModulus: int := 0x1_0000_0000
  const CharModulus: int := 0x1_0000

  /** Java's 32-bit `int` addition wraps around. */
  function WrapInt(x: int): (r: int)
    ensures -IntModulus / 2 <= r < IntModulus / 2
    ensures -IntModulus / 2 <= x < IntModulus / 2 ==> r == x
  {
    (x + IntModulus / 2) % IntModulus - IntModulus / 2
  }

  /** Java's `(char)` cast keeps the low 16 bits. */
  function CharCast(x: int): (r: int)
    ensures 0 <= r < CharModulus
    ensures 0 <= x < CharModulus ==> r == x
  {
    x % CharModulus
  }

  predicate IsInt32(x: int) { -IntModulus / 2 <= x < IntModulus / 2 }

  predicate IsChar(x: int) { 0 <= x < CharModulus }

  /** Every Integer gene is a 32-bit value and every Character gene a
    * 16-bit code unit, as Java guarantees. */
  predicate JavaGenes(s: seq<Gene>)
  {
    forall i :: 0 <= i < |s| ==> (s[i].Int? ==> IsInt32(s[i].value)) && (s[i].Chr? ==> IsChar(s[i].code))
  }

  /** Applies `op` position by position from the first gene on; the first
    * position whose genes `op` rejects decides the exception. */
  function Pointwise(op: (Gene, Gene) -> Outcome<Gene>, p1: seq<Gene>, p2: seq<Gene>): (r: Outcome<seq<Gene>>)
    requires |p1| == |p2|
    ensures r.Ok? ==> |r.value| == |p1| && forall i :: 0 <= i < |p1| ==> op(p1[i], p2[i]) == Ok(r.value[i])
    ensures r.Thrown? <==> exists i :: 0 <= i < |p1| && op(p1[i], p2[i]).Thrown?
    decreases |p1|
  {
    if p1 == [] then Ok([])
    else
      var n := |p1| - 1;
      match Pointwise(op, p1[..n], p2[..n])
      case Thrown(e) => Thrown(e)
      case Ok(prefix) =>
        match op(p1[n], p2[n])
        case Thrown(e) => Thrown(e)
        case Ok(g) => Ok(prefix + [g])
  }

  /** One more accepted position extends the result by its gene. */
  lemma PointwiseStep(op: (Gene, Gene) -> Outcome<Gene>, p1: seq<Gene>, p2: seq<Gene>, i: nat, prefix: seq<Gene>, g: Gene)
    requires |p1| == |p2| && i < |p1|
    requires Pointwise(op, p1[..i], p2[..i]) == Ok(prefix) && op(p1[i], p2[i]) == Ok(g)
    ensures Pointwise(op, p1[..i + 1], p2[..i + 1]) == Ok(prefix + [g])
  {
    assert p1[..i + 1][..i] == p1[..i] && p2[..i + 1][..i] == p2[..i];
  }

  /** A rejected position after an accepted prefix decides the exception
    * of the whole sequence. */
  lemma {:induction false} PointwiseFirstFailure(op: (Gene, Gene) -> Outcome<Gene>, p1: seq<Gene>, p2: seq<Gene>, i: nat)
    requires |p1| == |p2| && i < |p1| && op(p1[i], p2[i]).Thrown?
    requires Pointwise(op, p1[..i], p2[..i]).Ok?
    ensures Pointwise(op, p1, p2) == Thrown(op(p1[i], p2[i]).exception)
    decreases |p1|
  {
    var n := |p1| - 1;
    if i < n {
      assert p1[..n][i] == p1[i] && p2[..n][i] == p2[i];
      assert p1[..n][..i] == p1[..i] && p2[..n][..i] == p2[..i];
      PointwiseFirstFailure(op, p1[..n], p2[..n], i);
    } else {
      assert p1[..n] == p1[..i] && p2[..n] == p2[..i];
    }
  }

  // ---------------------------------------------------------------------
  // Noise reduction

  /** The Integer mean as written: the two genes are added in 32-bit
    * arithmetic, which wraps around, and the sum is halved toward zero. */
  function WrappedIntMean(a: int, b: int): int
  {
    JavaDiv(WrapInt(a + b), 2)
  }

  /** Two large genes give a mean of the opposite sign. */
  lemma WrappedIntMeanOverflows()
    ensures WrappedIntMean(0x4000_0000, 0x4000_0000) == -0x4000_0000
  {
  }

  /** The Integer mean without overflow: the exact sum halved toward zero. */
  function IntMean(a: int, b: int): int
  {
    JavaDiv(a + b, 2)
  }

  /** Halving toward zero, as bounds on the doubled quotient. */
  lemma HalfTowardZero(s: int)
    ensures s >= 0 ==> 2 * JavaDiv(s, 2) <= s <= 2 * JavaDiv(s, 2) + 1
    ensures s < 0 ==> 2 * JavaDiv(s, 2) - 1 <= s <= 2 * JavaDiv(s, 2)
  {
    assert Abs(2) == 2;
    if s >= 0 {
      assert JavaDiv(s, 2) == s / 2;
    } else {
      assert JavaDiv(s, 2) == -((-s) / 2);
    }
  }

  /** The mean lies between the two genes. */
  lemma IntMeanBetween(a: int, b: int)
    ensures a <= b ==> a <= IntMean(a, b) <= b
    ensures b <= a ==> b <= IntMean(a, b) <= a
  {
    HalfTowardZero(a + b);
  }

  /** As written, a gene averaged with itself is unchanged exactly when
    * doubling it stays within 32 bits, and the mean of two bits is their
    * AND. */
  lemma WrappedIntMeanOfSelfAndBits(a: int, b: int)
    requires IsInt32(a)
    ensures WrappedIntMean(a, a) == a <==> IsInt32(2 * a)
    ensures (a == 0 || a == 1) && (b == 0 || b == 1) ==> WrappedIntMean(a, b) == if a == 1 && b == 1 then 1 else 0
  {
    HalfTowardZero(a + a);
    if !IsInt32(2 * a) {
      if a >= 0 {
        assert WrapInt(2 * a) == 2 * a - IntModulus;
      } else {
        assert WrapInt(2 * a) == 2 * a + IntModulus;
      }
      HalfTowardZero(WrapInt(2 * a));
    }
    if (a == 0 || a == 1) && (b == 0 || b == 1) {
      HalfTowardZero(a + b);
    }
  }

  /** Where the 32-bit sum does not overflow the wrapped mean is the exact one. */
  lemma WrappedIntMeanAgrees(a: int, b: int)
    requires IsInt32(a + b)
    ensures WrappedIntMean(a, b) == IntMean(a, b)
  {
  }

  /** The mean of two genes: Integer genes by the 32-bit `WrappedIntMean`,
    * Character genes by the halved sum cast back to char. Any other pair fails; the
    * message is built by calling getClass on both genes, so an unset gene
    * fails with a null pointer. */
  function AverageGenes(gene1: Gene, gene2: Gene): Outcome<Gene>
  {
    if gene1.Int? && gene2.Int? then Ok(Int(WrappedIntMean(gene1.value, gene2.value)))
    else if gene1.Chr? && gene2.Chr? then Ok(Chr(CharCast((gene1.code + gene2.code) / 2)))
    else if gene1 == Null || gene2 == Null then Thrown(NullPointer(""))
    else Thrown(IllegalArgument("Unsupported gene types or mismatched types"))
  }

  /** A pair of set genes of one representation is accepted and its mean
    * fits that representation; a 32-bit gene averaged with itself is
    * unchanged exactly when doubling it does not overflow. */
  lemma AverageGenesProperties(kind: Kind, gene1: Gene, gene2: Gene)
    requires Fits(kind, gene1) && Fits(kind, gene2)
    ensures gene1 != Null && gene2 != Null ==> AverageGenes(gene1, gene2).Ok?
    ensures AverageGenes(gene1, gene2).Ok? ==> Fits(kind, AverageGenes(gene1, gene2).value)
    ensures gene1 == gene2 && gene1.Chr? && IsChar(gene1.code) ==> AverageGenes(gene1, gene2) == Ok(gene1)
    ensures gene1 == gene2 && gene1.Int? && IsInt32(gene1.value) ==>
      (AverageGenes(gene1, gene2) == Ok(gene1) <==> IsInt32(2 * gene1.value))
  {
    if gene1 == gene2 && gene1.Int? && IsInt32(gene1.value) {
      WrappedIntMeanOfSelfAndBits(gene1.value, gene1.value);
    }
  }

  /** Every Integer gene can be doubled without leaving 32 bits. */
  predicate Doublable(p: seq<Gene>)
  {
    forall i :: 0 <= i < |p| && p[i].Int? ==> IsInt32(2 * p[i].value)
  }

  /** Crossing a chromosome whose genes are all set with itself reproduces
    * its genes exactly when no Integer gene overflows on doubling. */
  lemma {:induction false} NoiseReductionOfSelf(kind: Kind, p: seq<Gene>)
    requires AllFit(kind, p) && AllSet(p) && JavaGenes(p)
    ensures Pointwise(AverageGenes, p, p) == Ok(p) <==> Doublable(p)
  {
    forall i | 0 <= i < |p|
      ensures p[i].Int? ==> (AverageGenes(p[i], p[i]) == Ok(p[i]) <==> IsInt32(2 * p[i].value))
      ensures p[i].Chr? ==> AverageGenes(p[i], p[i]) == Ok(p[i])
    {
      AverageGenesProperties(kind, p[i], p[i]);
    }
    var r := Pointwise(AverageGenes, p, p);
    assert r.Ok?;
    if Doublable(p) {
      assert r.value == p;
    } else {
      var i :| 0 <= i < |p| && p[i].Int? && !IsInt32(2 * p[i].value);
      assert r.value[i] != p[i];
    }
  }

  method NoiseReduction(parent1: Chromosome, parent2: Chromosome) returns (r: Outcome<Chromosome>)
    requires Mates(parent1, parent2)
    ensures match Pointwise(AverageGenes, parent1.genes[..], parent2.genes[..])
      case Ok(genes) => r.Ok? && Offspring(parent1, r.value) && r.value.genes[..] == genes
      case Thrown(e) => r == Thrown(e)
  {
    var crossed := parent1.Clone();
    ghost var p1, p2 := parent1.genes[..], parent2.genes[..];
    for i := 0 to parent1.genes.Length
      invariant Pointwise(AverageGenes, p1[..i], p2[..i]) == Ok(crossed.genes[..i]) && crossed.Valid()
      modifies crossed.genes
    {
      var newGene := AverageGenes(parent1.genes[i], parent2.genes[i]);
      if newGene.Thrown? {
        PointwiseFirstFailure(AverageGenes, p1, p2, i);
        return Thrown(newGene.exception);
      }
      AverageGenesProperties(crossed.kind, parent1.genes[i], parent2.genes[i]);
      PointwiseStep(AverageGenes, p1, p2, i, crossed.genes[..i], newGene.value);
      var _ := crossed.SetGen(i, newGene.value);
      assert crossed.genes[..i + 1] == crossed.genes[..i] + [newGene.value];
    }
    assert p1[..parent1.genes.Length] == p1 && p2[..parent1.genes.Length] == p2;
    assert crossed.genes[..] == crossed.genes[..parent1.genes.Length];
    r := Ok(crossed);
  }

  // ---------------------------------------------------------------------
  // Eccentric

  /** The Integer rule around a given mean: the gene farther from it wins,
    * the larger one on a tie. */
  function FartherFrom(gene1: int, gene2: int, average: int): (r: int)
    ensures r == gene1 || r == gene2
    ensures Abs(r - average) >= Abs(gene1 - average) && Abs(r - average) >= Abs(gene2 - average)
    ensures Abs(gene1 - average) == Abs(gene2 - average) ==> r == if gene1 >= gene2 then gene1 else gene2
  {
    if Abs(gene1 - average) > Abs(gene2 - average) then gene1
    else if Abs(gene1 - average) == Abs(gene2 - average) then (if gene1 >= gene2 then gene1 else gene2)
    else gene2
  }

  /** The Integer overload as written: the mean is the floor of the
    * wrapped 32-bit sum halved (exact in double arithmetic for such sums). */
  function WrappedExtremeInt(gene1: int, gene2: int): int
  {
    FartherFrom(gene1, gene2, WrapInt(gene1 + gene2) / 2)
  }

  /** Two negative genes whose sum overflows get a positive mean, and the
    * smaller gene is then the farther one. */
  lemma WrappedExtremeIntOverflows()
    ensures WrappedExtremeInt(-0x8000_0000, -1) == -0x8000_0000
  {
    assert WrapInt(-0x8000_0001) == 0x7FFF_FFFF;
  }

  /** The Integer overload with the exact floored mean. */
  function ExtremeInt(gene1: int, gene2: int): int
  {
    FartherFrom(gene1, gene2, (gene1 + gene2) / 2)
  }

  /** Around the exact floored mean the larger gene is always at least as
    * far, so the eccentric gene is the maximum; without overflow the
    * wrapped rule agrees. */
  lemma ExtremeIntIsMax(a: int, b: int)
    ensures ExtremeInt(a, b) == if a >= b then a else b
  {
    var average := (a + b) / 2;
    assert 2 * average <= a + b < 2 * average + 2;
  }

  /** Where the 32-bit sum does not overflow the wrapped rule is the exact one. */
  lemma WrappedExtremeIntAgrees(a: int, b: int)
    requires IsInt32(a + b)
    ensures WrappedExtremeInt(a, b) == ExtremeInt(a, b)
  {
  }

  /** The Character overload: the same rule around the halved sum cast to
    * char; Character sums never leave the char range before halving. */
  function ExtremeChar(gene1: int, gene2: int): int
  {
    FartherFrom(gene1, gene2, CharCast((gene1 + gene2) / 2))
  }

  lemma ExtremeCharIsMax(a: int, b: int)
    requires IsChar(a) && IsChar(b)
    ensures ExtremeChar(a, b) == if a >= b then a else b
  {
    var average := (a + b) / 2;
    assert CharCast(average) == average;
    assert 2 * average <= a + b < 2 * average + 2;
  }

  /** The class check comes first (getClass on an unset gene fails with a
    * null pointer); genes of one class go to the overload for that class,
    * Integer genes to the 32-bit `WrappedExtremeInt`. */
  function EccentricGene(gene1: Gene, gene2: Gene): Outcome<Gene>
  {
    if gene1 == Null || gene2 == Null then Thrown(NullPointer(""))
    else if gene1.Int? && gene2.Int? then Ok(Int(WrappedExtremeInt(gene1.value, gene2.value)))
    else if gene1.Chr? && gene2.Chr? then Ok(Chr(ExtremeChar(gene1.code, gene2.code)))
    else Thrown(IllegalArgument("Genes must be of the same type"))
  }

  /** Every eccentric gene is one of the parents' genes, so it fits their
    * representation. */
  lemma EccentricGeneFromParents(kind: Kind, gene1: Gene, gene2: Gene)
    requires Fits(kind, gene1) && Fits(kind, gene2) && EccentricGene(gene1, gene2).Ok?
    ensures EccentricGene(gene1, gene2).value in {gene1, gene2}
    ensures Fits(kind, EccentricGene(gene1, gene2).value)
  {
  }

  /** On bits the eccentric gene is the OR of the two. */
  lemma EccentricOnBits(a: int, b: int)
    requires (a == 0 || a == 1) && (b == 0 || b == 1)
    ensures EccentricGene(Int(a), Int(b)) == Ok(Int(if a == 1 || b == 1 then 1 else 0))
  {
    var g := EccentricGene(Int(a), Int(b));
    assert g == Ok(Int(WrappedExtremeInt(a, b)));
    assert WrappedExtremeInt(a, b) == if a == 1 || b == 1 then 1 else 0 by {
      if a == 0 && b == 0 {
        assert WrappedExtremeInt(0, 0) == 0;
      } else if a == 0 {
        assert WrappedExtremeInt(0, 1) == 1;
      } else if b == 0 {
        assert WrappedExtremeInt(1, 0) == 1;
      } else {
        assert WrappedExtremeInt(1, 1) == 1;
      }
    }
  }

  /** An eccentric offspring takes, at every position, one of the parents'
    * genes: the larger Character gene, and the larger Integer gene wherever
    * the 32-bit sum of the pair does not overflow. */
  lemma {:induction false} EccentricOffspring(p1: seq<Gene>, p2: seq<Gene>)
    requires |p1| == |p2| && JavaGenes(p1) && JavaGenes(p2) && Pointwise(EccentricGene, p1, p2).Ok?
    ensures FromParents(Pointwise(EccentricGene, p1, p2).value, p1, p2)
    ensures forall i :: 0 <= i < |p1| ==>
      var r := Pointwise(EccentricGene, p1, p2).value[i];
      (r.Int? && IsInt32(p1[i].value + p2[i].value) ==> r.value == if p1[i].value >= p2[i].value then p1[i].value else p2[i].value)
      && (r.Chr? ==> r.code == if p1[i].code >= p2[i].code then p1[i].code else p2[i].code)
  {
    var r := Pointwise(EccentricGene, p1, p2).value;
    forall i | 0 <= i < |p1|
      ensures r[i] == p1[i] || r[i] == p2[i]
      ensures r[i].Int? && IsInt32(p1[i].value + p2[i].value) ==> r[i].value == if p1[i].value >= p2[i].value then p1[i].value else p2[i].value
      ensures r[i].Chr? ==> r[i].code == if p1[i].code >= p2[i].code then p1[i].code else p2[i].code
    {
      assert EccentricGene(p1[i], p2[i]) == Ok(r[i]);
      if p1[i].Int? && p2[i].Int? && IsInt32(p1[i].value + p2[i].value) {
        WrappedExtremeIntAgrees(p1[i].value, p2[i].value);
        ExtremeIntIsMax(p1[i].value, p2[i].value);
      } else if p1[i].Chr? && p2[i].Chr? {
        ExtremeCharIsMax(p1[i].code, p2[i].code);
      }
    }
  }

  method Eccentric(parent1: Chromosome, parent2: Chromosome) returns (r: Outcome<Chromosome>)
    requires Mates(parent1, parent2)
    ensures match Pointwise(EccentricGene, parent1.genes[..], parent2.genes[..])
      case Ok(genes) => r.Ok? && Offspring(parent1, r.value) && r.value.genes[..] == genes
      case Thrown(e) => r == Thrown(e)
  {
    var crossed := parent1.Clone();
    ghost var p1, p2 := parent1.genes[..], parent2.genes[..];
    for i := 0 to parent1.genes.Length
      invariant Pointwise(EccentricGene, p1[..i], p2[..i]) == Ok(crossed.genes[..i]) && crossed.Valid()
      modifies crossed.genes
    {
      var gene1 := parent1.genes[i];
      var gene2 := parent2.genes[i];
      var newGene := EccentricGene(gene1, gene2);
      if newGene.Thrown? {
        PointwiseFirstFailure(EccentricGene, p1, p2, i);
        return Thrown(newGene.exception);
      }
      EccentricGeneFromParents(crossed.kind, gene1, gene2);
      PointwiseStep(EccentricGene, p1, p2, i, crossed.genes[..i], newGene.value);
      var _ := crossed.SetGen(i, newGene.value);
      assert crossed.genes[..i + 1] == crossed.genes[..i] + [newGene.value];
    }
    assert p1[..parent1.genes.Length] == p1 && p2[..parent1.genes.Length] == p2;
    assert crossed.genes[..] == crossed.genes[..parent1.genes.Length];
    r := Ok(crossed);
  }
}
