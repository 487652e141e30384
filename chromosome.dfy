/**
 * Chromosomes: a fixed-length array of genes with a fitness value and a
 * parent flag.  The three concrete representations (binary, decimal and
 * character genes) share one class; `kind` says which one an object is,
 * and the methods that differ between them dispatch on it.
 */
module Chromosomes {
  import opened Common

  /** The code unit of 'a' and the size of the alphabet 'a'..'z'. */
  const LetterA: int := 97
  const AlphabetSize: int := 26

  /** The concrete chromosome class an object stands for. */
  datatype Kind = Binary | Decimal(numberOnlyOnce: bool) | Letters

  /** Whether `setGen` accepts the gene: the cast to Integer (binary and
    * decimal) or Character (letters); null passes either cast. */
  predicate Fits(kind: Kind, g: Gene)
  {
    match kind
    case Letters => !g.Int?
    case _ => !g.Chr?
  }

  predicate AllFit(kind: Kind, s: seq<Gene>)
  {
    forall i :: 0 <= i < |s| ==> Fits(kind, s[i])
  }

  /** No gene is null. */
  predicate AllSet(s: seq<Gene>)
  {
    forall i :: 0 <= i < |s| ==> s[i] != Null
  }

  predicate IsBit(g: Gene) { g == Int(0) || g == Int(1) }

  predicate IsLetter(g: Gene) { g.Chr? && LetterA <= g.code < LetterA + AlphabetSize }

  /** The draws `initialize` consumes for a chromosome of `n` genes:
    * one per gene in [0, 2), [0, n) or [0, 26), except in
    * permutation mode, where only the shuffle draws. */
  predicate InitDraws(kind: Kind, n: nat, draws: seq<int>)
  {
    match kind
    case Binary => |draws| == n && forall k :: 0 <= k < n ==> 0 <= draws[k] < 2
    case Decimal(unique) =>
      if unique then ShuffleDraws(n, draws)
      else |draws| == n && forall k :: 0 <= k < n ==> 0 <= draws[k] < n
    case Letters => |draws| == n && forall k :: 0 <= k < n ==> 0 <= draws[k] < AlphabetSize
  }

  /** The genes `initialize` produces from its draws. */
  function Initialized(kind: Kind, n: nat, draws: seq<int>): (s: seq<Gene>)
    requires InitDraws(kind, n, draws)
    ensures |s| == n
  {
    match kind
    case Binary => seq(n, i requires 0 <= i < n => Int(draws[i]))
    case Decimal(unique) =>
      if unique then Shuffle(Identity(n), draws)
      else seq(n, i requires 0 <= i < n => Int(draws[i]))
    case Letters => seq(n, i requires 0 <= i < n => Chr(LetterA + draws[i]))
  }

  /** Every representation initialises to set genes of its own type, and
    * each to its own domain: bits, numbers below n, a permutation of
    * 0..n-1, or lower-case letters. */
  lemma InitializedDomain(kind: Kind, n: nat, draws: seq<int>)
    requires InitDraws(kind, n, draws)
    ensures AllFit(kind, Initialized(kind, n, draws)) && AllSet(Initialized(kind, n, draws))
    ensures kind == Binary ==> forall i :: 0 <= i < n ==> IsBit(Initialized(kind, n, draws)[i])
    ensures kind == Decimal(false) ==>
              forall i :: 0 <= i < n ==> 0 <= Initialized(kind, n, draws)[i].value < n
    ensures kind == Decimal(true) ==> multiset(Initialized(kind, n, draws)) == multiset(Identity(n))
    ensures kind == Letters ==> forall i :: 0 <= i < n ==> IsLetter(Initialized(kind, n, draws)[i])
  {
    if kind == Decimal(true) {
      ShufflePermutes(Identity(n), draws);
      PermutationOfIdentity(Initialized(kind, n, draws), n);
    }
  }

  /** The in-place shuffle as the loop runs it: exchange entry i with the
    * drawn one, then continue with i - 1, down to 1. */
  function ShuffleFrom(cur: seq<Gene>, draws: seq<int>, i: nat): seq<Gene>
    requires i < |cur| && |draws| == i
    requires forall k :: 0 <= k < |draws| ==> 0 <= draws[k] <= i - k
    decreases i
  {
    if i == 0 then cur
    else ShuffleFrom(Swap(cur, i, draws[0]), draws[1..], i - 1)
  }

  /** One turn of the loop. */
  lemma ShuffleFromStep(cur: seq<Gene>, draws: seq<int>, i: nat)
    requires 1 <= i < |cur| && |draws| == i
    requires forall k :: 0 <= k < |draws| ==> 0 <= draws[k] <= i - k
    ensures forall k :: 0 <= k < |draws[1..]| ==> 0 <= draws[1..][k] <= i - 1 - k
    ensures ShuffleFrom(cur, draws, i) == ShuffleFrom(Swap(cur, i, draws[0]), draws[1..], i - 1)
  {
  }

  /** Running the loop on a prefix leaves the entries after it alone. */
  lemma {:induction false} ShuffleFromPrefix(cur: seq<Gene>, rest: seq<Gene>, draws: seq<int>, i: nat)
    requires i < |cur| && |draws| == i
    requires forall k :: 0 <= k < |draws| ==> 0 <= draws[k] <= i - k
    ensures ShuffleFrom(cur + rest, draws, i) == ShuffleFrom(cur, draws, i) + rest
    decreases i
  {
    if i > 0 {
      assert Swap(cur + rest, i, draws[0]) == Swap(cur, i, draws[0]) + rest;
      ShuffleFromPrefix(Swap(cur, i, draws[0]), rest, draws[1..], i - 1);
    }
  }

  /** The loop computes the recursive Fisher-Yates shuffle. */
  lemma {:induction false} ShuffleFromIsShuffle(s: seq<Gene>, draws: seq<int>)
    requires |s| >= 1 && ShuffleDraws(|s|, draws)
    ensures ShuffleFrom(s, draws, |s| - 1) == Shuffle(s, draws)
    decreases |s|
  {
    if |s| > 1 {
      var i := |s| - 1;
      var t := Swap(s, i, draws[0]);
      // ShuffleFrom(s, draws, i) == ShuffleFrom(t, draws[1..], i - 1)
      assert t == t[..i] + [t[i]];
      ShuffleFromPrefix(t[..i], [t[i]], draws[1..], i - 1);
      ShuffleFromIsShuffle(t[..i], draws[1..]);
    }
  }

  /** A permutation of 0..n-1 holds only set numbers below n. */
  lemma PermutationOfIdentity(s: seq<Gene>, n: nat)
    requires multiset(s) == multiset(Identity(n))
    ensures forall i :: 0 <= i < |s| ==> s[i].Int? && 0 <= s[i].value < n
  {
    forall i | 0 <= i < |s|
      ensures s[i].Int? && 0 <= s[i].value < n
    {
      assert s[i] in multiset(s);
      assert s[i] in Identity(n);
    }
  }

  /** What `mutateGen` demands of the gene it replaces and of the draws:
    * a binary gene is unboxed, a decimal gene is compared with the
    * draws until one differs, a letter takes one draw. */
  predicate MutateDraws(kind: Kind, n: nat, g: Gene, draws: seq<int>)
  {
    match kind
    case Binary => g.Int?
    case Decimal(_) =>
      && g.Int?
      && (forall k :: 0 <= k < |draws| ==> 0 <= draws[k] < n)
      && exists k :: 0 <= k < |draws| && draws[k] != g.value
    case Letters => |draws| >= 1 && 0 <= draws[0] < AlphabetSize
  }

  /** The gene `mutateGen` writes in place of `g`. */
  function Mutated(kind: Kind, n: nat, g: Gene, draws: seq<int>): Gene
    requires MutateDraws(kind, n, g, draws)
  {
    match kind
    case Binary => Int(if g.value == 0 then 1 else 0)
    case Decimal(_) => Int(draws[FirstDifferent(draws, g.value)])
    case Letters => Chr(LetterA + draws[0])
  }

  /** A binary or decimal mutation always changes the gene and keeps it in
    * its domain; a letter mutation keeps it a letter but may redraw the
    * letter it replaces. */
  lemma MutatedDomain(kind: Kind, n: nat, g: Gene, draws: seq<int>)
    requires MutateDraws(kind, n, g, draws)
    ensures Fits(kind, Mutated(kind, n, g, draws)) && Mutated(kind, n, g, draws) != Null
    ensures kind.Binary? ==> Mutated(kind, n, g, draws) != g && (IsBit(g) ==> IsBit(Mutated(kind, n, g, draws)))
    ensures kind.Decimal? ==> Mutated(kind, n, g, draws) != g && 0 <= Mutated(kind, n, g, draws).value < n
    ensures kind.Letters? ==> IsLetter(Mutated(kind, n, g, draws))
    ensures kind.Letters? && IsLetter(g) ==> Mutated(kind, n, g, [g.code - LetterA]) == g
  {
  }

  /** Flipping a bit twice gives the bit back. */
  lemma BitFlipTwiceRestores(n: nat, g: Gene)
    requires IsBit(g)
    ensures Mutated(Binary, n, Mutated(Binary, n, g, []), []) == g
  {
  }

  /** A decimal mutation needs a second value to move to: with one gene
    * holding 0 no draw in [0, 1) differs from it. */
  lemma DecimalMutationNeedsTwoValues(n: nat, g: Gene, draws: seq<int>)
    requires MutateDraws(Decimal(false), n, g, draws) || MutateDraws(Decimal(true), n, g, draws)
    requires g == Int(0)
    ensures n >= 2
  {
    var k :| 0 <= k < |draws| && draws[k] != g.value;
  }

  /** Mutating a permutation-mode chromosome of two or more genes leaves a
    * duplicated number, so the genes are no longer a permutation. */
  lemma {:induction false} MutationBreaksPermutation(s: seq<Gene>, n: nat, p: nat, draws: seq<int>)
    requires n == |s| && p < n
    requires multiset(s) == multiset(Identity(n))
    requires MutateDraws(Decimal(true), n, s[p], draws)
    ensures multiset(s[p := Mutated(Decimal(true), n, s[p], draws)]) != multiset(Identity(n))
  {
    var g := Mutated(Decimal(true), n, s[p], draws);
    var t := s[p := g];
    PermutationOfIdentity(s, n);
    assert g in Identity(n) by {
      assert Identity(n)[g.value] == g;
    }
    assert g in multiset(s);
    var q :| 0 <= q < |s| && s[q] == g;
    assert q != p;
    IdentityCount(n, g.value);
    TwoPositions(t, p, q);
  }

  /** Each number below n occurs exactly once in 0..n-1. */
  lemma {:induction false} IdentityCount(n: nat, v: int)
    requires 0 <= v < n
    ensures multiset(Identity(n))[Int(v)] == 1
  {
    if n - 1 == v {
      assert Identity(n) == Identity(n - 1) + [Int(v)];
      assert Int(v) !in Identity(n - 1);
    } else {
      assert Identity(n) == Identity(n - 1) + [Int(n - 1)];
      IdentityCount(n - 1, v);
    }
  }

  /** A value at two positions occurs at least twice. */
  lemma TwoPositions(t: seq<Gene>, p: nat, q: nat)
    requires p < |t| && q < |t| && p != q && t[p] == t[q]
    ensures multiset(t)[t[p]] >= 2
  {
    var lo, hi := if p < q then p else q, if p < q then q else p;
    assert t == t[..lo] + [t[lo]] + t[lo + 1..hi] + [t[hi]] + t[hi + 1..];
  }

  class Chromosome {
    /** The representation, fixed at construction. */
    const kind: Kind
    /** The gene array; its length never changes. */
    const genes: array<Gene>
    var fitness: real
    var isParent: bool

    /** Every gene has the boxed type of the representation. */
    ghost predicate Valid()
      reads genes
    {
      AllFit(kind, genes[..])
    }

    /** Valid, and no gene is left unset. */
    ghost predicate Ready()
      reads genes
    {
      Valid() && AllSet(genes[..])
    }

    /** A chromosome of `genLength` unset genes that is not a parent. */
    constructor (kind: Kind, genLength: nat)
      ensures this.kind == kind && fresh(genes) && genes.Length == genLength
      ensures forall i :: 0 <= i < genLength ==> genes[i] == Null
      ensures fitness == 0.0 && !isParent
      ensures Valid()
    {
      this.kind := kind;
      genes := new Gene[genLength](_ => Null);
      fitness := 0.0;
      isParent := false;
    }

    method SetFitness(fitness: real)
      modifies this
      ensures this.fitness == fitness && isParent == old(isParent)
    {
      this.fitness := fitness;
    }

    method SetParent(isParent: bool)
      modifies this
      ensures this.isParent == isParent && fitness == old(fitness)
    {
      this.isParent := isParent;
    }

    /** Stores one gene. The cast to the representation's boxed type is
      * evaluated before the array store, so a gene of the other type throws
      * a class cast first; an unset gene passes the cast; a position
      * outside the array throws an index error. Nothing changes on a throw. */
    method SetGen(position: int, gene: Gene) returns (r: Option<Exception>)
      modifies genes
      ensures !Fits(kind, gene) ==> r == Some(ClassCast)
      ensures Fits(kind, gene) && !(0 <= position < genes.Length) ==> r == Some(IndexOutOfBounds)
      ensures r.Some? ==> genes[..] == old(genes[..])
      ensures r == None <==> Fits(kind, gene) && 0 <= position < genes.Length
      ensures r == None ==> genes[..] == old(genes[..])[position := gene]
      ensures old(Valid()) ==> Valid()
    {
      if !Fits(kind, gene) {
        return Some(ClassCast);
      }
      if !(0 <= position < genes.Length) {
        return Some(IndexOutOfBounds);
      }
      genes[position] := gene;
      r := None;
    }

    /** Fills every gene from the draws, as the representation prescribes. */
    method Initialize(draws: seq<int>)
      requires InitDraws(kind, genes.Length, draws)
      modifies genes
      ensures genes[..] == Initialized(kind, genes.Length, draws)
      ensures Ready()
    {
      match kind {
        case Binary => InitializeBinary(draws);
        case Decimal(_) => InitializeDecimal(draws);
        case Letters => InitializeLetters(draws);
      }
      InitializedDomain(kind, genes.Length, draws);
    }

    method InitializeBinary(draws: seq<int>)
      requires kind == Binary && InitDraws(kind, genes.Length, draws)
      modifies genes
      ensures genes[..] == Initialized(kind, genes.Length, draws)
      ensures forall i :: 0 <= i < genes.Length ==> IsBit(genes[i])
    {
      var i := 0;
      while i < genes.Length
        invariant 0 <= i <= genes.Length
        invariant genes[..i] == Initialized(kind, genes.Length, draws)[..i]
      {
        genes[i] := Int(draws[i]);
        i := i + 1;
      }
    }

    /** Repeat mode draws each gene from [0, n); permutation mode writes
      * 0..n-1 and then shuffles them in place. */
    method InitializeDecimal(draws: seq<int>)
      requires kind.Decimal? && InitDraws(kind, genes.Length, draws)
      modifies genes
      ensures genes[..] == Initialized(kind, genes.Length, draws)
      ensures !kind.numberOnlyOnce ==> forall i :: 0 <= i < genes.Length ==> 0 <= genes[i].value < genes.Length
      ensures kind.numberOnlyOnce ==> multiset(genes[..]) == multiset(Identity(genes.Length))
    {
      var n := genes.Length;
      ghost var filled := if kind.numberOnlyOnce then Identity(n) else Initialized(kind, n, draws);
      var i := 0;
      while i < n
        invariant 0 <= i <= n
        invariant genes[..i] == filled[..i]
      {
        if kind.numberOnlyOnce {
          genes[i] := Int(i);
        } else {
          genes[i] := Int(draws[i]);
        }
        i := i + 1;
      }
      assert genes[..] == filled;
      if kind.numberOnlyOnce {
        ShuffleInPlace(draws);
        ShufflePermutes(Identity(n), draws);
      }
    }

    /** The in-place Fisher-Yates loop of permutation mode. */
    method ShuffleInPlace(draws: seq<int>)
      requires ShuffleDraws(genes.Length, draws)
      modifies genes
      ensures genes[..] == Shuffle(old(genes[..]), draws)
    {
      var n := genes.Length;
      if n == 0 {
        return;
      }
      ghost var start := genes[..];
      ShuffleFromIsShuffle(start, draws);
      var i := n - 1;
      ghost var rest := draws;
      ghost var cur := start;
      while i > 0
        invariant 0 <= i < n && rest == draws[n - 1 - i..]
        invariant |rest| == i && forall k :: 0 <= k < i ==> 0 <= rest[k] <= i - k
        invariant |cur| == n && genes[..] == cur
        invariant ShuffleFrom(cur, rest, i) == Shuffle(start, draws)
      {
        var j := draws[n - 1 - i];
        var temp := genes[i];
        genes[i] := genes[j];
        assert genes[..] == cur[i := cur[j]];
        genes[j] := temp;
        assert genes[..] == cur[i := cur[j]][j := cur[i]];
        ShuffleFromStep(cur, rest, i);
        cur := Swap(cur, i, j);
        rest := rest[1..];
        i := i - 1;
      }
    }

    method InitializeLetters(draws: seq<int>)
      requires kind == Letters && InitDraws(kind, genes.Length, draws)
      modifies genes
      ensures genes[..] == Initialized(kind, genes.Length, draws)
      ensures forall i :: 0 <= i < genes.Length ==> IsLetter(genes[i])
    {
      var i := 0;
      while i < genes.Length
        invariant 0 <= i <= genes.Length
        invariant genes[..i] == Initialized(kind, genes.Length, draws)[..i]
      {
        genes[i] := Chr(LetterA + draws[i]);
        i := i + 1;
      }
    }

    /** A new chromosome of the same representation with a copy of the
      * genes, fitness 0 and no parent flag. */
    method Clone() returns (copy: Chromosome)
      ensures fresh(copy) && fresh(copy.genes)
      ensures copy.kind == kind && copy.genes[..] == genes[..]
      ensures copy.fitness == 0.0 && !copy.isParent
      ensures Valid() ==> copy.Valid()
      ensures Ready() ==> copy.Ready()
    {
      copy := new Chromosome(kind, genes.Length);
      forall i | 0 <= i < genes.Length {
        copy.genes[i] := genes[i];
      }
      assert copy.genes[..] == genes[..];
    }

    /** Clears fitness and parent flag and unsets every gene. */
    method Clean()
      modifies this, genes
      ensures fitness == 0.0 && !isParent
      ensures forall i :: 0 <= i < genes.Length ==> genes[i] == Null
      ensures Valid()
    {
      fitness := 0.0;
      isParent := false;
      forall i | 0 <= i < genes.Length {
        genes[i] := Null;
      }
    }

    /** Replaces one gene by a new value drawn for the representation. */
    method MutateGen(position: int, draws: seq<int>)
      requires 0 <= position < genes.Length
      requires MutateDraws(kind, genes.Length, genes[position], draws)
      modifies genes
      ensures genes[..] == old(genes[..])[position := Mutated(kind, genes.Length, old(genes[position]), draws)]
      ensures old(Valid()) ==> Valid()
      ensures old(Ready()) ==> Ready()
    {
      MutatedDomain(kind, genes.Length, genes[position], draws);
      match kind
      case Binary => MutateBit(position);
      case Decimal(_) => MutateNumber(position, draws);
      case Letters => MutateLetter(position, draws);
    }

    /** Flips a binary gene: 0 becomes 1, anything else becomes 0. */
    method MutateBit(position: int)
      requires kind == Binary && 0 <= position < genes.Length && genes[position].Int?
      modifies genes
      ensures genes[..] == old(genes[..])[position := Mutated(kind, genes.Length, old(genes[position]), [])]
    {
      var gen := genes[position].value;
      gen := if gen == 0 then 1 else 0;
      var _ := SetGen(position, Int(gen));
    }

    /** Draws numbers in [0, n) until one differs from the current gene. */
    method MutateNumber(position: int, draws: seq<int>)
      requires kind.Decimal? && 0 <= position < genes.Length
      requires MutateDraws(kind, genes.Length, genes[position], draws)
      modifies genes
      ensures genes[..] == old(genes[..])[position := Mutated(kind, genes.Length, old(genes[position]), draws)]
    {
      var k := 0;
      var gen := draws[k];
      while genes[position] == Int(gen)
        invariant 0 <= k <= FirstDifferent(draws, genes[position].value) && gen == draws[k]
        decreases FirstDifferent(draws, genes[position].value) - k
      {
        k := k + 1;
        gen := draws[k];
      }
      var _ := SetGen(position, Int(gen));
    }

    /** Draws a letter in 'a'..'z', possibly the one already there. */
    method MutateLetter(position: int, draws: seq<int>)
      requires kind == Letters && 0 <= position < genes.Length
      requires MutateDraws(kind, genes.Length, genes[position], draws)
      modifies genes
      ensures genes[..] == old(genes[..])[position := Mutated(kind, genes.Length, old(genes[position]), draws)]
    {
      genes[position] := Chr(LetterA + draws[0]);
    }
  }
}
