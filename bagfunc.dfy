/**
 * The knapsack fitness function of the bundled example: a chromosome
 * picks item i when its gene i is 1; the fitness is the total value of
 * the picked items, or 0 when their total weight exceeds the capacity.
 */
module Knapsack {
  import opened Common
  import opened Chromosomes

  /** An entry of the item table: its value and its weight. */
  datatype Item = Item(value: int, weight: int)

  /** The running totals of the loop: value picked so far and weight picked so far. */
  datatype Load = Load(value: int, weight: int)

  /** What `(int)` makes of a stored gene: a boxed Integer unboxes, a null
    * gene throws on unboxing, a boxed Character fails the cast. */
  function Unboxed(g: Gene): (r: Outcome<int>)
    ensures g.Int? <==> r.Ok?
    ensures g.Int? ==> r.value == g.value
    ensures g.Null? ==> r == Thrown(NullPointer(""))
    ensures g.Chr? ==> r == Thrown(ClassCast)
  {
    match g
    case Int(v) => Ok(v)
    case Null => Thrown(NullPointer(""))
    case Chr(_) => Thrown(ClassCast)
  }

  /** Whether gene `g` picks its item. */
  predicate Picks(g: Gene)
  {
    g == Int(1)
  }

  /** The totals over the genes in order, or the first exception met:
    * an unboxing failure at any gene, or a missing item at a gene that is 1. */
  function Totals(items: seq<Item>, genes: seq<Gene>): Outcome<Load>
    decreases |genes|
  {
    if |genes| == 0 then Ok(Load(0, 0))
    else
      var n := |genes| - 1;
      match Totals(items, genes[..n])
      case Thrown(e) => Thrown(e)
      case Ok(load) =>
        match Unboxed(genes[n])
        case Thrown(e) => Thrown(e)
        case Ok(v) =>
          if v != 1 then Ok(load)
          else if n >= |items| then Thrown(IndexOutOfBounds)
          else Ok(Load(load.value + items[n].value, load.weight + items[n].weight))
  }

  /** The fitness the function returns for `genes`. */
  function BagFitness(items: seq<Item>, maxWeight: int, genes: seq<Gene>): Outcome<real>
  {
    match Totals(items, genes)
    case Thrown(e) => Thrown(e)
    case Ok(load) => if load.weight > maxWeight then Ok(0.0) else Ok(load.value as real)
  }

  /** The total value of the picked items (independent reference). */
  function PickedValue(items: seq<Item>, genes: seq<Gene>): int
    requires |genes| <= |items|
  {
    if |genes| == 0 then 0
    else PickedValue(items, genes[..|genes| - 1])
         + (if Picks(genes[|genes| - 1]) then items[|genes| - 1].value else 0)
  }

  /** The total weight of the picked items (independent reference). */
  function PickedWeight(items: seq<Item>, genes: seq<Gene>): int
    requires |genes| <= |items|
  {
    if |genes| == 0 then 0
    else PickedWeight(items, genes[..|genes| - 1])
         + (if Picks(genes[|genes| - 1]) then items[|genes| - 1].weight else 0)
  }

  /** `calculateFitness`: the loop over the chromosome's genes, proved to
    * return exactly `BagFitness` of its genes. */
  method CalculateFitness(chromosome: Chromosome, items: seq<Item>, maxWeight: int)
    returns (r: Outcome<real>)
    ensures r == BagFitness(items, maxWeight, chromosome.genes[..])
  {
    var fitValue: real := 0.0;
    var chWeight := 0;
    var i := 0;
    while i < chromosome.genes.Length
      invariant 0 <= i <= chromosome.genes.Length
      invariant Totals(items, chromosome.genes[..i]) == Ok(Load(fitValue.Floor, chWeight))
      invariant fitValue == fitValue.Floor as real
    {
      assert chromosome.genes[..i + 1][..i] == chromosome.genes[..i];
      var gene := Unboxed(chromosome.genes[i]);
      if gene.Thrown? {
        assert Totals(items, chromosome.genes[..]) == Thrown(gene.exception) by {
          ThrownPersists(items, chromosome.genes[..], i + 1);
        }
        return Thrown(gene.exception);
      }
      if gene.value == 1 {
        if i >= |items| {
          assert Totals(items, chromosome.genes[..]) == Thrown(IndexOutOfBounds) by {
            ThrownPersists(items, chromosome.genes[..], i + 1);
          }
          return Thrown(IndexOutOfBounds);
        }
        fitValue := fitValue + items[i].value as real;
        chWeight := chWeight + items[i].weight;
      }
      i := i + 1;
    }
    assert chromosome.genes[..] == chromosome.genes[..i];
    r := if chWeight > maxWeight then Ok(0.0) else Ok(fitValue);
  }

  /** An exception raised by a prefix is the exception of the whole run. */
  lemma {:induction false} ThrownPersists(items: seq<Item>, genes: seq<Gene>, k: nat)
    requires k <= |genes|
    requires Totals(items, genes[..k]).Thrown?
    ensures Totals(items, genes) == Totals(items, genes[..k])
    decreases |genes| - k
  {
    if k < |genes| {
      assert genes[..k + 1][..k] == genes[..k];
      ThrownPersists(items, genes, k + 1);
    } else {
      assert genes[..k] == genes;
    }
  }

  /** With an item for every gene and only boxed Integers, the loop never
    * throws and its totals are the picked value and picked weight. */
  lemma {:induction false} TotalsArePickedSums(items: seq<Item>, genes: seq<Gene>)
    requires |genes| <= |items|
    requires forall k :: 0 <= k < |genes| ==> genes[k].Int?
    ensures Totals(items, genes) == Ok(Load(PickedValue(items, genes), PickedWeight(items, genes)))
  {
    if |genes| > 0 {
      TotalsArePickedSums(items, genes[..|genes| - 1]);
    }
  }

  /** The loop throws exactly when some gene is not a boxed Integer, or a
    * gene equal to 1 has no item. */
  lemma {:induction false} TotalsThrowIff(items: seq<Item>, genes: seq<Gene>)
    ensures Totals(items, genes).Thrown? <==>
      exists k :: 0 <= k < |genes| && (!genes[k].Int? || (Picks(genes[k]) && k >= |items|))
  {
    if |genes| > 0 {
      var n := |genes| - 1;
      var prefix := genes[..n];
      TotalsThrowIff(items, prefix);
      if Totals(items, genes).Thrown? {
        if Totals(items, prefix).Ok? {
          assert !genes[n].Int? || (Picks(genes[n]) && n >= |items|);
        } else {
          var k :| 0 <= k < |prefix| && (!prefix[k].Int? || (Picks(prefix[k]) && k >= |items|));
          assert genes[k] == prefix[k];
        }
      } else {
        forall k | 0 <= k < |genes|
          ensures genes[k].Int? && (!Picks(genes[k]) || k < |items|)
        {
          if k < n {
            assert genes[k] == prefix[k];
          }
        }
      }
    }
  }

  /** Overweight selections score 0 (line 35). */
  lemma OverweightScoresZero(items: seq<Item>, maxWeight: int, genes: seq<Gene>)
    requires |genes| <= |items|
    requires forall k :: 0 <= k < |genes| ==> genes[k].Int?
    requires PickedWeight(items, genes) > maxWeight
    ensures BagFitness(items, maxWeight, genes) == Ok(0.0)
  {
    TotalsArePickedSums(items, genes);
  }

  /** A selection within the capacity, including one exactly at it, scores
    * the total value of the picked items. */
  lemma WithinCapacityScoresValue(items: seq<Item>, maxWeight: int, genes: seq<Gene>)
    requires |genes| <= |items|
    requires forall k :: 0 <= k < |genes| ==> genes[k].Int?
    requires PickedWeight(items, genes) <= maxWeight
    ensures BagFitness(items, maxWeight, genes) == Ok(PickedValue(items, genes) as real)
  {
    TotalsArePickedSums(items, genes);
  }

  /** A total weight exactly equal to the capacity is accepted. */
  lemma ExactWeightAccepted(items: seq<Item>, genes: seq<Gene>)
    requires |genes| <= |items|
    requires forall k :: 0 <= k < |genes| ==> genes[k].Int?
    ensures BagFitness(items, PickedWeight(items, genes), genes) == Ok(PickedValue(items, genes) as real)
  {
    WithinCapacityScoresValue(items, PickedWeight(items, genes), genes);
  }

  /** A gene other than 1 contributes neither value nor weight: turning a
    * picked gene into any other integer removes exactly that item. */
  lemma {:induction false} OtherGenesIgnored(items: seq<Item>, genes: seq<Gene>, p: nat, v: int)
    requires |genes| <= |items|
    requires p < |genes| && v != 1
    ensures PickedValue(items, genes[p := Int(v)])
      == PickedValue(items, genes) - (if Picks(genes[p]) then items[p].value else 0)
    ensures PickedWeight(items, genes[p := Int(v)])
      == PickedWeight(items, genes) - (if Picks(genes[p]) then items[p].weight else 0)
  {
    var n := |genes| - 1;
    var t := genes[p := Int(v)];
    if p == n {
      assert t[..n] == genes[..n];
    } else {
      assert t[..n] == genes[..n][p := Int(v)];
      OtherGenesIgnored(items, genes[..n], p, v);
    }
  }

  /** With no negative item value the total value picked is never negative. */
  lemma {:induction false} PickedValueNonNegative(items: seq<Item>, genes: seq<Gene>)
    requires |genes| <= |items|
    requires forall k :: 0 <= k < |items| ==> items[k].value >= 0
    ensures PickedValue(items, genes) >= 0
  {
    if |genes| > 0 {
      PickedValueNonNegative(items, genes[..|genes| - 1]);
    }
  }

  /** With no negative item value, whatever the fitness returns is not negative. */
  lemma FitnessNonNegative(items: seq<Item>, maxWeight: int, genes: seq<Gene>)
    requires |genes| <= |items|
    requires forall k :: 0 <= k < |genes| ==> genes[k].Int?
    requires forall k :: 0 <= k < |items| ==> items[k].value >= 0
    ensures BagFitness(items, maxWeight, genes).Ok?
    ensures BagFitness(items, maxWeight, genes).value >= 0.0
  {
    TotalsArePickedSums(items, genes);
    PickedValueNonNegative(items, genes);
  }

  /** The first three entries of the item table of the bundled example. */
  function ExampleItems(): seq<Item>
  {
    [Item(60, 10), Item(100, 20), Item(120, 30)]
  }

  /** With a capacity of 50, picking the last two (weight exactly 50) scores
    * 220, and picking all three (weight 60) scores 0. */
  lemma ExampleScores()
    ensures BagFitness(ExampleItems(), 50, [Int(0), Int(1), Int(1)]) == Ok(220.0)
    ensures BagFitness(ExampleItems(), 50, [Int(1), Int(1), Int(1)]) == Ok(0.0)
  {
    var some, all := [Int(0), Int(1), Int(1)], [Int(1), Int(1), Int(1)];
    assert some[..2] == [Int(0), Int(1)] && some[..2][..1] == [Int(0)] && [Int(0)][..0] == [];
    assert all[..2] == [Int(1), Int(1)] && all[..2][..1] == [Int(1)] && [Int(1)][..0] == [];
    TotalsArePickedSums(ExampleItems(), some);
    TotalsArePickedSums(ExampleItems(), all);
  }
}
