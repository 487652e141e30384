/**
 * Order crossover (OX). The offspring keeps the first parent's genes on an
 * inclusive segment between two drawn points; its other slots are filled
 * from left to right with the second parent's genes, in the second
 * parent's order, skipping every gene the offspring already holds.
 */
module OrderCrossover {
  import opened Common
  import opened Chromosomes
  import opened Crossovers

  /** The offspring list after the segment copy: `p1`'s genes on the
    * inclusive range [lo, hi], unset (null) genes elsewhere. */
  function Segment(p1: seq<Gene>, lo: int, hi: int): (r: seq<Gene>)
    ensures |r| == |p1|
  {
    seq(|p1|, i requires 0 <= i < |p1| => if lo <= i <= hi then p1[i] else Null)
  }

  /** Where the second parent's cursor stops when it starts at `k`: the
    * first position from `k` on whose gene the list does not contain, or
    * the length of `p2` when it contains all of them. */
  function Skip(off: seq<Gene>, p2: seq<Gene>, k: nat): (m: nat)
    requires k <= |p2|
    ensures k <= m <= |p2|
    ensures m < |p2| ==> p2[m] !in off
    ensures forall j :: k <= j < m ==> p2[j] in off
    decreases |p2| - k
  {
    if k == |p2| || p2[k] !in off then k else Skip(off, p2, k + 1)
  }

  /** Fills the unset slots from `i` on, the cursor standing at `k`. A
    * cursor that runs past the second parent reads outside its gene array. */
  function Fill(off: seq<Gene>, p2: seq<Gene>, i: nat, k: nat): Outcome<seq<Gene>>
    requires i <= |off| && k <= |p2|
    decreases |off| - i
  {
    if i == |off| then Ok(off)
    else if off[i] != Null then Fill(off, p2, i + 1, k)
    else
      var m := Skip(off, p2, k);
      if m == |p2| then Thrown(IndexOutOfBounds)
      else Fill(off[i := p2[m]], p2, i + 1, m + 1)
  }

  /** The offspring genes for the two drawn points, taken in either order. */
  function OrderGenes(p1: seq<Gene>, p2: seq<Gene>, point1: int, point2: int): Outcome<seq<Gene>>
    requires |p1| == |p2|
  {
    var lo, hi := if point1 <= point2 then point1 else point2, if point1 <= point2 then point2 else point1;
    Fill(Segment(p1, lo, hi), p2, 0, 0)
  }

  /** Filling keeps every set gene in place, sets every slot, and takes
    * every gene it adds from the second parent; the only failure is the
    * cursor leaving the second parent. */
  lemma {:induction false} FillKeeps(off: seq<Gene>, p2: seq<Gene>, i: nat, k: nat)
    requires i <= |off| && k <= |p2|
    ensures Fill(off, p2, i, k).Thrown? ==> Fill(off, p2, i, k) == Thrown(IndexOutOfBounds)
    ensures Fill(off, p2, i, k).Ok? ==>
      var r := Fill(off, p2, i, k).value;
      && |r| == |off|
      && (forall j :: 0 <= j < |off| && (j < i || off[j] != Null) ==> r[j] == off[j])
      && (forall j :: i <= j < |off| ==> r[j] != Null && (r[j] == off[j] || r[j] in p2))
    decreases |off| - i
  {
    if i < |off| {
      if off[i] != Null {
        FillKeeps(off, p2, i + 1, k);
      } else {
        var m := Skip(off, p2, k);
        if m < |p2| {
          FillKeeps(off[i := p2[m]], p2, i + 1, m + 1);
        }
      }
    }
  }

  /** The offspring holds the first parent's set genes on the segment, and
    * every other slot holds a set gene of the second parent. */
  lemma OrderKeepsSegment(p1: seq<Gene>, p2: seq<Gene>, point1: int, point2: int)
    requires |p1| == |p2|
    ensures OrderGenes(p1, p2, point1, point2).Thrown? ==> OrderGenes(p1, p2, point1, point2) == Thrown(IndexOutOfBounds)
    ensures OrderGenes(p1, p2, point1, point2).Ok? ==>
      var r := OrderGenes(p1, p2, point1, point2).value;
      var lo, hi := if point1 <= point2 then point1 else point2, if point1 <= point2 then point2 else point1;
      && |r| == |p1| && AllSet(r)
      && (forall j :: lo <= j <= hi && 0 <= j < |p1| && p1[j] != Null ==> r[j] == p1[j])
      && (forall j :: 0 <= j < |p1| && !(lo <= j <= hi) ==> r[j] in p2)
  {
    var lo, hi := if point1 <= point2 then point1 else point2, if point1 <= point2 then point2 else point1;
    FillKeeps(Segment(p1, lo, hi), p2, 0, 0);
  }

  /** `s` is `t` with some genes left out: its genes occur in `t` in the
    * same order. */
  predicate Subsequence(s: seq<Gene>, t: seq<Gene>)
    decreases |t|
  {
    |s| == 0 || (|t| > 0 && ((s[0] == t[0] && Subsequence(s[1..], t[1..])) || Subsequence(s, t[1..])))
  }

  /** The genes of `r` at the slots from `i` on that are unset in `off`,
    * from left to right: the genes a fill of `off` added. */
  function FilledFrom(off: seq<Gene>, r: seq<Gene>, i: nat): (f: seq<Gene>)
    requires |r| == |off| && i <= |off|
    ensures |f| <= |off| - i
    decreases |off| - i
  {
    if i == |off| then []
    else if off[i] == Null then [r[i]] + FilledFrom(off, r, i + 1)
    else FilledFrom(off, r, i + 1)
  }

  /** Setting slots before `i` does not change what is filled from `i` on. */
  lemma {:induction false} FilledFromSetBefore(off: seq<Gene>, next: seq<Gene>, r: seq<Gene>, i: nat)
    requires |off| == |next| == |r| && i <= |off|
    requires forall j :: i <= j < |off| ==> (off[j] == Null <==> next[j] == Null)
    ensures FilledFrom(next, r, i) == FilledFrom(off, r, i)
    decreases |off| - i
  {
    if i < |off| {
      FilledFromSetBefore(off, next, r, i + 1);
    }
  }

  /** A gene taken at cursor position `m` can precede genes taken after it. */
  lemma {:induction false} TakenAt(p2: seq<Gene>, rest: seq<Gene>, k: nat, m: nat)
    requires k <= m < |p2| && Subsequence(rest, p2[m + 1..])
    ensures Subsequence([p2[m]] + rest, p2[k..])
    decreases m - k
  {
    var s := [p2[m]] + rest;
    assert s[1..] == rest;
    if k == m {
      assert p2[k..][1..] == p2[m + 1..];
    } else {
      TakenAt(p2, rest, k + 1, m);
      assert p2[k..][1..] == p2[k + 1..];
    }
  }

  /** The cursor only moves forward, so the genes a fill adds, read from
    * left to right, occur in the second parent from the cursor on in the
    * same order. */
  lemma {:induction false} FillKeepsOrder(off: seq<Gene>, p2: seq<Gene>, i: nat, k: nat)
    requires i <= |off| && k <= |p2|
    ensures Fill(off, p2, i, k).Ok? ==>
      var r := Fill(off, p2, i, k).value;
      |r| == |off| && Subsequence(FilledFrom(off, r, i), p2[k..])
    decreases |off| - i
  {
    FillKeeps(off, p2, i, k);
    if i < |off| && Fill(off, p2, i, k).Ok? {
      var r := Fill(off, p2, i, k).value;
      if off[i] != Null {
        FillKeepsOrder(off, p2, i + 1, k);
      } else {
        var m := Skip(off, p2, k);
        var next := off[i := p2[m]];
        FillKeepsOrder(next, p2, i + 1, m + 1);
        FillKeeps(next, p2, i + 1, m + 1);
        FilledFromSetBefore(off, next, r, i + 1);
        assert r[i] == p2[m];
        TakenAt(p2, FilledFrom(off, r, i + 1), k, m);
      }
    }
  }

  /** OX keeps the second parent's order: the genes the offspring takes
    * from it, read from left to right over the slots the segment left
    * unset, form a subsequence of the second parent. When every gene of
    * the first parent is set those slots are exactly the ones outside the
    * segment. */
  lemma OrderKeepsOrder(p1: seq<Gene>, p2: seq<Gene>, point1: int, point2: int)
    requires |p1| == |p2|
    ensures var lo, hi := if point1 <= point2 then point1 else point2, if point1 <= point2 then point2 else point1;
      && (AllSet(p1) ==> forall j :: 0 <= j < |p1| ==> (Segment(p1, lo, hi)[j] == Null <==> !(lo <= j <= hi)))
      && (OrderGenes(p1, p2, point1, point2).Ok? ==>
            |OrderGenes(p1, p2, point1, point2).value| == |p1| &&
            Subsequence(FilledFrom(Segment(p1, lo, hi), OrderGenes(p1, p2, point1, point2).value, 0), p2))
  {
    var lo, hi := if point1 <= point2 then point1 else point2, if point1 <= point2 then point2 else point1;
    FillKeepsOrder(Segment(p1, lo, hi), p2, 0, 0);
    assert p2[0..] == p2;
  }

  /** What holds of the list and the cursor while the parents are
    * permutations of one set: no set gene twice, every set gene one of
    * `p2`'s, the slots before `i` set, and every gene before the cursor
    * already in the list. */
  ghost predicate FillState(off: seq<Gene>, p2: seq<Gene>, i: nat, k: nat)
  {
    && i <= |off| == |p2| && k <= |p2|
    && (forall a, b :: 0 <= a < b < |off| && off[a] != Null ==> off[a] != off[b])
    && (forall j :: 0 <= j < |off| && off[j] != Null ==> off[j] in p2)
    && (forall j :: 0 <= j < i ==> off[j] != Null)
    && (forall m :: 0 <= m < k ==> p2[m] in off)
  }

  /** An unset slot means some gene of `p2` is still missing from the
    * list, so the cursor finds one before the end of `p2`. */
  lemma CursorInBounds(off: seq<Gene>, p2: seq<Gene>, i: nat, k: nat)
    requires Distinct(p2) && AllSet(p2) && FillState(off, p2, i, k) && i < |off| && off[i] == Null
    ensures Skip(off, p2, k) < |p2|
  {
    var m := Skip(off, p2, k);
    if m == |p2| {
      assert Values(p2) + {Null} <= Values(off) by {
        assert Null == off[i];
        forall x | x in Values(p2)
          ensures x in Values(off)
        {
          var j :| 0 <= j < |p2| && p2[j] == x;
          assert j < k || k <= j < m;
        }
      }
      ValuesBound(p2);
      ValuesBound(off);
      assert Null !in Values(p2);
      SubsetSize(Values(p2) + {Null}, Values(off));
      assert false;
    }
  }

  /** From such a state the cursor never leaves `p2` and the result holds
    * distinct set genes of `p2`. */
  lemma {:induction false} FillPermutes(off: seq<Gene>, p2: seq<Gene>, i: nat, k: nat)
    requires Distinct(p2) && AllSet(p2) && FillState(off, p2, i, k)
    ensures Fill(off, p2, i, k).Ok?
    ensures var r := Fill(off, p2, i, k).value;
      |r| == |p2| && AllSet(r) && Distinct(r) && Values(r) <= Values(p2)
    decreases |off| - i
  {
    if i == |off| {
    } else if off[i] != Null {
      FillPermutes(off, p2, i + 1, k);
    } else {
      var m := Skip(off, p2, k);
      CursorInBounds(off, p2, i, k);
      var next := off[i := p2[m]];
      assert FillState(next, p2, i + 1, m + 1) by {
        forall j | 0 <= j < m + 1
          ensures p2[j] in next
        {
          if j == m {
            assert next[i] == p2[j];
          } else {
            assert j < k || k <= j < m;
            var a :| 0 <= a < |off| && off[a] == p2[j];
            assert a != i;
            assert next[a] == p2[j];
          }
        }
      }
      FillPermutes(next, p2, i + 1, m + 1);
    }
  }

  /** When both parents are permutations of one set of set genes, OX never
    * reads past the second parent and its offspring is a permutation of
    * that set. */
  lemma OrderPermutes(p1: seq<Gene>, p2: seq<Gene>, point1: int, point2: int)
    requires |p1| == |p2| && Distinct(p1) && Distinct(p2) && AllSet(p1) && Values(p1) == Values(p2)
    ensures OrderGenes(p1, p2, point1, point2).Ok?
    ensures var r := OrderGenes(p1, p2, point1, point2).value;
      |r| == |p1| && Distinct(r) && Values(r) == Values(p1)
  {
    var lo, hi := if point1 <= point2 then point1 else point2, if point1 <= point2 then point2 else point1;
    var seg := Segment(p1, lo, hi);
    assert AllSet(p2) by {
      forall j | 0 <= j < |p2|
        ensures p2[j] != Null
      {
        assert p2[j] in Values(p1);
      }
    }
    assert FillState(seg, p2, 0, 0) by {
      forall j | 0 <= j < |seg| && seg[j] != Null
        ensures seg[j] in p2
      {
        assert seg[j] in Values(p1);
      }
    }
    FillPermutes(seg, p2, 0, 0);
    var r := Fill(seg, p2, 0, 0).value;
    ValuesBound(r);
    ValuesBound(p2);
    SubsetSize(Values(r), Values(p2));
  }

  /** `draw1` and `draw2` are the two points, each in [0, length). Parents
    * without genes give the exception of a draw below 0. */
  method OrderCross(parent1: Chromosome, parent2: Chromosome, draw1: int, draw2: int) returns (r: Outcome<Chromosome>)
    requires Mates(parent1, parent2)
    requires parent1.genes.Length > 0 ==> 0 <= draw1 < parent1.genes.Length && 0 <= draw2 < parent1.genes.Length
    ensures parent1.genes.Length == 0 ==> r == Thrown(IllegalArgument(BoundMessage))
    ensures parent1.genes.Length > 0 ==>
      match OrderGenes(parent1.genes[..], parent2.genes[..], draw1, draw2)
      case Ok(genes) => r.Ok? && Offspring(parent1, r.value) && r.value.genes[..] == genes
      case Thrown(e) => r == Thrown(e)
  {
    var crossed := parent1.Clone();
    var length := parent1.genes.Length;
    if length == 0 {
      return Thrown(IllegalArgument(BoundMessage));
    }
    ghost var p1, p2 := parent1.genes[..], parent2.genes[..];
    var point1, point2 := draw1, draw2;
    if point1 > point2 {
      var temp := point1;
      point1 := point2;
      point2 := temp;
    }
    var offspringGenes: seq<Gene> := [];
    for i := 0 to length
      invariant |offspringGenes| == i && forall j :: 0 <= j < i ==> offspringGenes[j] == Null
    {
      offspringGenes := offspringGenes + [Null];
    }
    for i := point1 to point2 + 1
      invariant |offspringGenes| == length
      invariant forall j :: 0 <= j < length ==> offspringGenes[j] == if point1 <= j < i then p1[j] else Null
    {
      offspringGenes := offspringGenes[i := parent1.genes[i]];
    }
    assert offspringGenes == Segment(p1, point1, point2);
    ghost var target := OrderGenes(p1, p2, draw1, draw2);
    var parent2Index := 0;
    for i := 0 to length
      invariant |offspringGenes| == length && parent2Index <= length
      invariant Fill(offspringGenes, p2, i, parent2Index) == target
      invariant AllFit(crossed.kind, offspringGenes)
    {
      if offspringGenes[i] == Null {
        ghost var start := parent2Index;
        while parent2Index < length && parent2.genes[parent2Index] in offspringGenes
          invariant start <= parent2Index <= Skip(offspringGenes, p2, start)
        {
          parent2Index := parent2Index + 1;
        }
        if parent2Index == length {
          return Thrown(IndexOutOfBounds);
        }
        offspringGenes := offspringGenes[i := parent2.genes[parent2Index]];
        parent2Index := parent2Index + 1;
      }
    }
    assert target == Ok(offspringGenes);
    for i := 0 to length
      invariant crossed.genes[..i] == offspringGenes[..i] && crossed.Valid()
      modifies crossed.genes
    {
      var _ := crossed.SetGen(i, offspringGenes[i]);
    }
    assert crossed.genes[..] == crossed.genes[..length];
    r := Ok(crossed);
  }
}
