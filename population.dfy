/**
 * A population: an ordered list of chromosome references with the number
 * of its generation and a flag recording that it has been sorted.
 */
module Populations {
  import opened Common
  import opened Chromosomes

  /** Non-increasing fitness from first to last. */
  ghost predicate Descending(s: seq<Chromosome>)
    reads s
  {
    forall i, j :: 0 <= i < j < |s| ==> s[i].fitness >= s[j].fitness
  }

  /** A member paired with the fitness it has when the sort compares it. */
  type Keyed = (Chromosome, real)

  /** The members with their current fitness values. */
  function KeyedByFitness(s: seq<Chromosome>): (e: seq<Keyed>)
    reads s
    ensures |e| == |s| && forall i :: 0 <= i < |s| ==> e[i] == (s[i], s[i].fitness)
  {
    seq(|s|, i requires 0 <= i < |s| reads s => (s[i], s[i].fitness))
  }

  /** The members paired with the given fitness values. */
  function Paired(s: seq<Chromosome>, f: seq<real>): (e: seq<Keyed>)
    requires |f| == |s|
    ensures |e| == |s| && forall i :: 0 <= i < |s| ==> e[i] == (s[i], f[i])
  {
    seq(|s|, i requires 0 <= i < |s| => (s[i], f[i]))
  }

  /** The members of a keyed sequence, in order. */
  function Members(e: seq<Keyed>): (s: seq<Chromosome>)
    ensures |s| == |e| && forall i :: 0 <= i < |e| ==> s[i] == e[i].0
  {
    seq(|e|, i requires 0 <= i < |e| => e[i].0)
  }

  /** Non-increasing keys from first to last. */
  predicate KeysDescending(e: seq<Keyed>)
  {
    forall i, j :: 0 <= i < j < |e| ==> e[i].1 >= e[j].1
  }

  /** Inserts `x` in front of the first entry whose key is not larger. */
  function InsertByKey(x: Keyed, e: seq<Keyed>): (r: seq<Keyed>)
    ensures |r| == |e| + 1
  {
    if e == [] || e[0].1 <= x.1 then [x] + e
    else [e[0]] + InsertByKey(x, e[1..])
  }

  /** Insertion sort on the keys, largest first. */
  function SortByKey(e: seq<Keyed>): (r: seq<Keyed>)
    ensures |r| == |e|
  {
    if e == [] then [] else InsertByKey(e[0], SortByKey(e[1..]))
  }

  /** The order Collections.sort gives with the comparator on fitness
    * reversed: best first, and entries of equal fitness in their
    * original order. */
  function SortByFitness(s: seq<Chromosome>): (r: seq<Chromosome>)
    reads s
    ensures |r| == |s|
  {
    Members(SortByKey(KeyedByFitness(s)))
  }

  /** The entries of key `v`, in order. */
  function WithKey(e: seq<Keyed>, v: real): seq<Keyed>
  {
    if e == [] then []
    else (if e[0].1 == v then [e[0]] else []) + WithKey(e[1..], v)
  }

  lemma {:induction false} InsertKeepsDescending(x: Keyed, e: seq<Keyed>)
    requires KeysDescending(e)
    ensures KeysDescending(InsertByKey(x, e))
    ensures InsertByKey(x, e)[0] == x || InsertByKey(x, e)[0] == e[0]
  {
    if e != [] && e[0].1 > x.1 {
      InsertKeepsDescending(x, e[1..]);
    }
  }

  lemma {:induction false} InsertPermutes(x: Keyed, e: seq<Keyed>)
    ensures multiset(InsertByKey(x, e)) == multiset(e) + multiset{x}
  {
    if e != [] && e[0].1 > x.1 {
      InsertPermutes(x, e[1..]);
      assert e == [e[0]] + e[1..];
    }
  }

  lemma {:induction false} InsertWithKey(x: Keyed, e: seq<Keyed>, v: real)
    ensures WithKey(InsertByKey(x, e), v) == (if x.1 == v then [x] else []) + WithKey(e, v)
  {
    if e == [] || e[0].1 <= x.1 {
      WithKeyCons(x, e, v);
    } else {
      InsertWithKey(x, e[1..], v);
      WithKeyCons(e[0], InsertByKey(x, e[1..]), v);
      WithKeyCons(e[0], e[1..], v);
      assert [e[0]] + e[1..] == e;
      // e[0] and x have different keys, so at most one of them is kept.
      if x.1 == v {
        assert e[0].1 != v;
      }
    }
  }

  lemma WithKeyCons(y: Keyed, e: seq<Keyed>, v: real)
    ensures WithKey([y] + e, v) == (if y.1 == v then [y] else []) + WithKey(e, v)
  {
    assert ([y] + e)[1..] == e;
  }

  /** The sorted order is largest key first. */
  lemma {:induction false} SortKeysDescending(e: seq<Keyed>)
    ensures KeysDescending(SortByKey(e))
  {
    if e != [] {
      SortKeysDescending(e[1..]);
      InsertKeepsDescending(e[0], SortByKey(e[1..]));
    }
  }

  /** Sorting only reorders. */
  lemma {:induction false} SortKeysPermutes(e: seq<Keyed>)
    ensures multiset(SortByKey(e)) == multiset(e)
  {
    if e != [] {
      SortKeysPermutes(e[1..]);
      InsertPermutes(e[0], SortByKey(e[1..]));
      assert e == [e[0]] + e[1..];
    }
  }

  /** Sorting is stable: the entries of any one key keep their order. */
  lemma {:induction false} SortIsStable(e: seq<Keyed>, v: real)
    ensures WithKey(SortByKey(e), v) == WithKey(e, v)
  {
    if e != [] {
      SortIsStable(e[1..], v);
      InsertWithKey(e[0], SortByKey(e[1..]), v);
    }
  }

  /** A sorted population is best first. */
  lemma SortIsDescending(s: seq<Chromosome>)
    ensures Descending(SortByFitness(s))
  {
    var e := KeyedByFitness(s);
    var t := SortByKey(e);
    SortKeysDescending(e);
    SortKeysPermutes(e);
    forall i | 0 <= i < |t|
      ensures t[i].1 == t[i].0.fitness
    {
      assert t[i] in multiset(e);
    }
  }

  lemma {:induction false} InsertMembersPermute(x: Keyed, e: seq<Keyed>)
    ensures multiset(Members(InsertByKey(x, e))) == multiset(Members(e)) + multiset{x.0}
  {
    if e == [] || e[0].1 <= x.1 {
      assert Members([x] + e) == [x.0] + Members(e);
    } else {
      InsertMembersPermute(x, e[1..]);
      assert Members([e[0]] + InsertByKey(x, e[1..])) == [e[0].0] + Members(InsertByKey(x, e[1..]));
      assert Members(e) == [e[0].0] + Members(e[1..]);
    }
  }

  /** Sorting a population only reorders its members. */
  lemma {:induction false} SortPermutes(s: seq<Chromosome>)
    ensures multiset(SortByFitness(s)) == multiset(s)
  {
    var e := KeyedByFitness(s);
    SortMembersPermute(e);
    assert Members(e) == s;
  }

  lemma {:induction false} SortMembersPermute(e: seq<Keyed>)
    ensures multiset(Members(SortByKey(e))) == multiset(Members(e))
  {
    if e != [] {
      SortMembersPermute(e[1..]);
      InsertMembersPermute(e[0], SortByKey(e[1..]));
      assert Members(e) == [e[0].0] + Members(e[1..]);
    }
  }

  /** Some chromosome object occurs at two positions. */
  predicate HasRepeat(s: seq<Chromosome>)
  {
    exists i, j :: 0 <= i < j < |s| && s[i] == s[j]
  }

  /** The distinct fitness values of the entries. */
  function FitnessValues(s: seq<Chromosome>): set<real>
    reads s
  {
    set i | 0 <= i < |s| :: s[i].fitness
  }

  /** There are no more distinct fitness values than entries. */
  lemma {:induction false} FitnessValuesBound(s: seq<Chromosome>)
    ensures |FitnessValues(s)| <= |s|
  {
    if s != [] {
      FitnessValuesBound(s[..|s| - 1]);
      assert FitnessValues(s) == FitnessValues(s[..|s| - 1]) + {s[|s| - 1].fitness};
    }
  }

  class Population {
    var chromosomes: seq<Chromosome>
    const generation: int
    var sorted: bool

    /** An empty population of generation 0. */
    constructor ()
      ensures chromosomes == [] && generation == 0 && !sorted
    {
      chromosomes := [];
      generation := 0;
      sorted := false;
    }

    /** An empty population of the given generation. */
    constructor OfGeneration(generation: int)
      ensures chromosomes == [] && this.generation == generation && !sorted
    {
      chromosomes := [];
      this.generation := generation;
      sorted := false;
    }

    /** Appends a chromosome; the sorted flag stays as it was. */
    method AddChromosome(chromosome: Chromosome)
      modifies this
      ensures chromosomes == old(chromosomes) + [chromosome] && sorted == old(sorted)
    {
      chromosomes := chromosomes + [chromosome];
    }

    /** Stable sort, best fitness first. */
    method SortPopulation()
      modifies this
      ensures chromosomes == SortByFitness(old(chromosomes)) && sorted
    {
      chromosomes := SortByFitness(chromosomes);
      sorted := true;
    }

    /** The first entry, after sorting unless the population was already
      * marked sorted (then entries appended since are not looked at). An
      * empty population is sorted and then has no first entry. */
    method GetBestChromosome() returns (r: Outcome<Chromosome>)
      modifies this
      ensures chromosomes == if old(sorted) then old(chromosomes) else SortByFitness(old(chromosomes))
      ensures sorted
      ensures |chromosomes| == 0 <==> r == Thrown(IndexOutOfBounds)
      ensures |chromosomes| > 0 ==> r == Ok(chromosomes[0])
      ensures r.Ok? && !old(sorted) ==> forall i :: 0 <= i < |chromosomes| ==> chromosomes[i].fitness <= r.value.fitness
    {
      if !sorted {
        ghost var t := SortByFitness(chromosomes);
        SortIsDescending(chromosomes);
        assert Descending(t);
        SortPopulation();
        assert chromosomes == t && Descending(t);
      }
      if |chromosomes| == 0 {
        return Thrown(IndexOutOfBounds);
      }
      r := Ok(chromosomes[0]);
    }

    /** The last entry, after sorting unless already marked sorted. An
      * empty population is sorted and then has no last entry. */
    method GetWorstChromosome() returns (r: Outcome<Chromosome>)
      modifies this
      ensures chromosomes == if old(sorted) then old(chromosomes) else SortByFitness(old(chromosomes))
      ensures sorted
      ensures |chromosomes| == 0 <==> r == Thrown(IndexOutOfBounds)
      ensures |chromosomes| > 0 ==> r == Ok(chromosomes[|chromosomes| - 1])
      ensures r.Ok? && !old(sorted) ==> forall i :: 0 <= i < |chromosomes| ==> chromosomes[i].fitness >= r.value.fitness
    {
      if !sorted {
        ghost var t := SortByFitness(chromosomes);
        SortIsDescending(chromosomes);
        assert Descending(t);
        SortPopulation();
        assert chromosomes == t && Descending(t);
      }
      if |chromosomes| == 0 {
        return Thrown(IndexOutOfBounds);
      }
      r := Ok(chromosomes[|chromosomes| - 1]);
    }

    /** Sets every member's fitness to the fitness function of its genes. */
    method CalculateFitSeq(fitness: seq<Gene> -> real)
      modifies chromosomes
      ensures forall i :: 0 <= i < |chromosomes| ==> chromosomes[i].fitness == fitness(chromosomes[i].genes[..])
      ensures forall i :: 0 <= i < |chromosomes| ==> chromosomes[i].isParent == old(chromosomes[i].isParent)
    {
      var i := 0;
      while i < |chromosomes|
        invariant 0 <= i <= |chromosomes|
        invariant forall k :: 0 <= k < i ==> chromosomes[k].fitness == fitness(chromosomes[k].genes[..])
        invariant forall k :: 0 <= k < |chromosomes| ==> chromosomes[k].isParent == old(chromosomes[k].isParent)
      {
        var value := fitness(chromosomes[i].genes[..]);
        chromosomes[i].SetFitness(value);
        i := i + 1;
      }
    }

    /** Clears the parent flag of every member. */
    method SetParents()
      modifies chromosomes
      ensures forall i :: 0 <= i < |chromosomes| ==> !chromosomes[i].isParent
      ensures forall i :: 0 <= i < |chromosomes| ==> chromosomes[i].fitness == old(chromosomes[i].fitness)
    {
      var i := 0;
      while i < |chromosomes|
        invariant 0 <= i <= |chromosomes|
        invariant forall k :: 0 <= k < i ==> !chromosomes[k].isParent
        invariant forall k :: 0 <= k < |chromosomes| ==> chromosomes[k].fitness == old(chromosomes[k].fitness)
      {
        chromosomes[i].SetParent(false);
        i := i + 1;
      }
    }

    /** Whether one chromosome object occurs twice (identity, not equal genes). */
    method IsSameInstance() returns (res: bool)
      ensures res <==> HasRepeat(chromosomes)
    {
      var unique: set<Chromosome> := {};
      res := false;
      var i := 0;
      while i < |chromosomes|
        invariant 0 <= i <= |chromosomes|
        invariant unique == set k | 0 <= k < i :: chromosomes[k]
        invariant res <==> exists a, b :: 0 <= a < b < i && chromosomes[a] == chromosomes[b]
      {
        var chromosome := chromosomes[i];
        if chromosome in unique {
          res := true;
        } else {
          unique := unique + {chromosome};
        }
        i := i + 1;
      }
    }

    /** The number of distinct fitness values among the members. */
    method CountUniqueFitnessValues() returns (count: nat)
      ensures count == |FitnessValues(chromosomes)|
      ensures count <= |chromosomes|
    {
      var unique: set<real> := {};
      var i := 0;
      while i < |chromosomes|
        invariant 0 <= i <= |chromosomes|
        invariant unique == FitnessValues(chromosomes[..i])
      {
        assert FitnessValues(chromosomes[..i + 1]) == unique + {chromosomes[i].fitness};
        unique := unique + {chromosomes[i].fitness};
        i := i + 1;
      }
      assert chromosomes[..i] == chromosomes;
      FitnessValuesBound(chromosomes);
      count := |unique|;
    }
  }
}
