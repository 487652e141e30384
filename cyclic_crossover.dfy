/**
 * Cyclic crossover (CX). Position i leads to the position where the first
 * parent holds the second parent's gene at i; following these links from
 * every position not yet visited traces cycles, and the offspring takes
 * the first parent's genes on the even-numbered cycles and the second
 * parent's on the odd-numbered ones. No random draw is involved.
 */
module CyclicCrossover {
  import opened Common
  import opened Chromosomes
  import opened Crossovers

  const NotFound: string := "Gene not found in parent chromosome!"

  /** The search of `indexOfGene` from position `i` on: `equals` is called
    * on the parent's gene, so an unset gene there fails with a null pointer. */
  function FindFrom(p: seq<Gene>, gene: Gene, i: nat): Outcome<nat>
    requires i <= |p|
    decreases |p| - i
  {
    if i == |p| then Thrown(IllegalState(NotFound))
    else if p[i] == Null then Thrown(NullPointer(""))
    else if p[i] == gene then Ok(i)
    else FindFrom(p, gene, i + 1)
  }

  function IndexOf(p: seq<Gene>, gene: Gene): Outcome<nat>
  {
    FindFrom(p, gene, 0)
  }

  /** The search finds the first position holding the gene; over set genes
    * it fails exactly when the gene is absent, and then with the
    * not-found exception. */
  lemma {:induction false} FindFromProperties(p: seq<Gene>, gene: Gene, i: nat)
    requires i <= |p|
    ensures FindFrom(p, gene, i).Ok? ==>
      var k := FindFrom(p, gene, i).value;
      i <= k < |p| && p[k] == gene && forall j :: i <= j < k ==> p[j] != gene
    ensures AllSet(p[i..]) ==>
      (FindFrom(p, gene, i).Ok? <==> gene in p[i..])
      && (FindFrom(p, gene, i).Thrown? ==> FindFrom(p, gene, i) == Thrown(IllegalState(NotFound)))
    decreases |p| - i
  {
    if i < |p| {
      FindFromProperties(p, gene, i + 1);
      assert p[i..] == [p[i]] + p[i + 1..];
    }
  }

  /** indexOfGene as a linear search over the parent's genes. */
  method IndexOfGene(parent: Chromosome, gene: Gene) returns (r: Outcome<nat>)
    ensures r == IndexOf(parent.genes[..], gene)
    ensures r.Ok? ==> (r.value < parent.genes.Length && parent.genes[r.value] == gene
      && forall j :: 0 <= j < r.value ==> parent.genes[j] != gene)
  {
    ghost var p := parent.genes[..];
    FindFromProperties(p, gene, 0);
    for i := 0 to parent.genes.Length
      invariant FindFrom(p, gene, i) == IndexOf(p, gene)
    {
      if parent.genes[i] == Null {
        return Thrown(NullPointer(""));
      }
      if parent.genes[i] == gene {
        return Ok(i);
      }
    }
    return Thrown(IllegalState(NotFound));
  }

  /** The positions not visited yet. */
  function Unvisited(visited: seq<bool>): set<nat>
  {
    set j: nat | j < |visited| && !visited[j]
  }

  lemma VisitShrinks(visited: seq<bool>, index: nat)
    requires index < |visited| && !visited[index]
    ensures Unvisited(visited[index := true]) < Unvisited(visited)
  {
    assert index in Unvisited(visited) - Unvisited(visited[index := true]);
  }

  /** The gene the current cycle assigns at `index`. */
  function Pick(p1: seq<Gene>, p2: seq<Gene>, index: nat, take: bool): Gene
    requires index < |p1| == |p2|
  {
    if take then p1[index] else p2[index]
  }

  /** The do-while of one cycle from `start`, now at the unvisited
    * position `index`: assign it, mark it visited, and move on to where
    * the first parent holds the second parent's gene, until the walk
    * comes back to `start` or to a visited position. */
  function Walk(p1: seq<Gene>, p2: seq<Gene>, off: seq<Gene>, visited: seq<bool>, start: nat, index: nat, take: bool)
    : (r: Outcome<(seq<Gene>, seq<bool>)>)
    requires |p1| == |p2| == |off| == |visited| && index < |visited| && !visited[index]
    ensures r.Ok? ==> |r.value.0| == |off| && |r.value.1| == |visited|
    decreases Unvisited(visited)
  {
    var off' := off[index := Pick(p1, p2, index, take)];
    var visited' := visited[index := true];
    match IndexOf(p1, p2[index])
    case Thrown(e) => Thrown(e)
    case Ok(next) =>
      FindFromProperties(p1, p2[index], 0);
      if next != start && !visited'[next] then
        VisitShrinks(visited, index);
        Walk(p1, p2, off', visited', start, next, take)
      else Ok((off', visited'))
  }

  /** The outer loop from `startIndex` on, `cycleCount` cycles found so far. */
  function Cycles(p1: seq<Gene>, p2: seq<Gene>, off: seq<Gene>, visited: seq<bool>, startIndex: nat, cycleCount: nat)
    : Outcome<seq<Gene>>
    requires |p1| == |p2| == |off| == |visited| && startIndex <= |visited|
    decreases |visited| - startIndex
  {
    if startIndex == |visited| then Ok(off)
    else if visited[startIndex] then Cycles(p1, p2, off, visited, startIndex + 1, cycleCount)
    else
      match Walk(p1, p2, off, visited, startIndex, startIndex, cycleCount % 2 == 0)
      case Thrown(e) => Thrown(e)
      case Ok(state) => Cycles(p1, p2, state.0, state.1, startIndex + 1, cycleCount + 1)
  }

  /** The offspring genes: every gene unset and every position unvisited
    * before the first cycle. */
  function CyclicGenes(p1: seq<Gene>, p2: seq<Gene>): Outcome<seq<Gene>>
    requires |p1| == |p2|
  {
    Cycles(p1, p2, seq(|p1|, _ => Null), seq(|p1|, _ => false), 0, 0)
  }

  // ---------------------------------------------------------------------
  // What the walk keeps in general

  /** A walk keeps what was visited before it, assigns and visits its
    * starting position, and assigns every newly visited position from the
    * parent of the current cycle. */
  lemma {:induction false} WalkKeeps(p1: seq<Gene>, p2: seq<Gene>, off: seq<Gene>, visited: seq<bool>, start: nat, index: nat, take: bool)
    requires |p1| == |p2| == |off| == |visited| && index < |visited| && !visited[index]
    ensures Walk(p1, p2, off, visited, start, index, take).Ok? ==>
      var (o, v) := Walk(p1, p2, off, visited, start, index, take).value;
      && v[index] && o[index] == Pick(p1, p2, index, take)
      && (forall j :: 0 <= j < |visited| && visited[j] ==> v[j] && o[j] == off[j])
      && (forall j :: 0 <= j < |visited| && v[j] && !visited[j] ==> o[j] == Pick(p1, p2, j, take))
    decreases Unvisited(visited)
  {
    var off' := off[index := Pick(p1, p2, index, take)];
    var visited' := visited[index := true];
    if IndexOf(p1, p2[index]).Ok? {
      var next := IndexOf(p1, p2[index]).value;
      FindFromProperties(p1, p2[index], 0);
      if next != start && !visited'[next] {
        VisitShrinks(visited, index);
        WalkKeeps(p1, p2, off', visited', start, next, take);
      }
    }
  }

  /** The outer loop keeps every visited position and, once every position
    * before `startIndex` is visited, leaves only parents' genes. */
  lemma {:induction false} CyclesKeep(p1: seq<Gene>, p2: seq<Gene>, off: seq<Gene>, visited: seq<bool>, startIndex: nat, cycleCount: nat)
    requires |p1| == |p2| == |off| == |visited| && startIndex <= |visited|
    requires forall j :: 0 <= j < startIndex ==> visited[j]
    requires forall j :: 0 <= j < |visited| && visited[j] ==> off[j] == p1[j] || off[j] == p2[j]
    ensures Cycles(p1, p2, off, visited, startIndex, cycleCount).Ok? ==>
      var r := Cycles(p1, p2, off, visited, startIndex, cycleCount).value;
      && |r| == |off|
      && (forall j :: 0 <= j < |visited| && visited[j] ==> r[j] == off[j])
      && FromParents(r, p1, p2)
    decreases |visited| - startIndex
  {
    if startIndex < |visited| {
      if visited[startIndex] {
        CyclesKeep(p1, p2, off, visited, startIndex + 1, cycleCount);
      } else {
        var take := cycleCount % 2 == 0;
        WalkKeeps(p1, p2, off, visited, startIndex, startIndex, take);
        var w := Walk(p1, p2, off, visited, startIndex, startIndex, take);
        if w.Ok? {
          CyclesKeep(p1, p2, w.value.0, w.value.1, startIndex + 1, cycleCount + 1);
        }
      }
    }
  }

  /** Every offspring gene is the gene at the same position in one of the
    * parents, and the first one comes from the first parent, whose cycle
    * is cycle 0. */
  lemma CyclicFromParents(p1: seq<Gene>, p2: seq<Gene>)
    requires |p1| == |p2|
    ensures CyclicGenes(p1, p2).Ok? ==>
      var r := CyclicGenes(p1, p2).value;
      FromParents(r, p1, p2) && (|p1| > 0 ==> r[0] == p1[0])
  {
    var off: seq<Gene>, visited: seq<bool> := seq(|p1|, _ => Null), seq(|p1|, _ => false);
    CyclesKeep(p1, p2, off, visited, 0, 0);
    if |p1| > 0 {
      WalkKeeps(p1, p2, off, visited, 0, 0, true);
      var w := Walk(p1, p2, off, visited, 0, 0, true);
      if w.Ok? {
        CyclesKeep(p1, p2, w.value.0, w.value.1, 1, 1);
      }
    }
  }

  // ---------------------------------------------------------------------
  // Permutation parents

  /** Both parents are permutations of one set of set genes. */
  predicate Permutations(p1: seq<Gene>, p2: seq<Gene>)
  {
    |p1| == |p2| && Distinct(p1) && Distinct(p2) && AllSet(p1) && Values(p1) == Values(p2)
  }

  /** Position `i` links to `j`: the first parent holds at `j` the second
    * parent's gene at `i`. */
  predicate Link(p1: seq<Gene>, p2: seq<Gene>, i: int, j: int)
  {
    0 <= i < |p2| && 0 <= j < |p1| && p2[i] == p1[j]
  }

  /** For permutation parents the search from every position succeeds and
    * finds its link. */
  lemma LinkFound(p1: seq<Gene>, p2: seq<Gene>, i: nat)
    requires Permutations(p1, p2) && i < |p2|
    ensures IndexOf(p1, p2[i]).Ok? && Link(p1, p2, i, IndexOf(p1, p2[i]).value)
  {
    FindFromProperties(p1, p2[i], 0);
    assert p1[0..] == p1;
    assert p2[i] in Values(p2);
  }

  /** No link leaves or enters the visited positions. */
  ghost predicate Closed(p1: seq<Gene>, p2: seq<Gene>, visited: seq<bool>)
    requires |visited| == |p1| == |p2|
  {
    forall i, j :: Link(p1, p2, i, j) ==> visited[i] == visited[j]
  }

  /** Two linked visited positions both took the first parent's gene or
    * both did not, and every visited position holds a parent's gene. */
  ghost predicate Agree(p1: seq<Gene>, p2: seq<Gene>, off: seq<Gene>, visited: seq<bool>)
  {
    && |off| == |visited| == |p1| == |p2|
    && (forall i, j :: Link(p1, p2, i, j) && visited[i] && visited[j] ==> (off[i] == p1[i] <==> off[j] == p1[j]))
    && (forall i :: 0 <= i < |visited| && visited[i] ==> off[i] == p1[i] || off[i] == p2[i])
  }

  /** The state of a walk from `start`, now at `index`, over the positions
    * `v0` visited before it: the positions it visited form a chain of
    * links from `start` to a predecessor of `index`, all assigned from
    * the same parent. */
  ghost predicate WalkState(p1: seq<Gene>, p2: seq<Gene>, off: seq<Gene>, visited: seq<bool>, v0: seq<bool>,
                            start: nat, index: nat, take: bool)
  {
    && |p1| == |p2| == |off| == |visited| == |v0| && start < |v0| && index < |v0|
    && !visited[index] && !v0[start]
    && Closed(p1, p2, v0)
    && (forall i :: 0 <= i < |v0| && v0[i] ==> visited[i])
    && (forall i :: 0 <= i < |v0| && visited[i] && !v0[i] ==> off[i] == Pick(p1, p2, i, take))
    && (index == start ==> visited == v0)
    && (index != start ==> visited[start] && exists i :: 0 <= i < |v0| && visited[i] && !v0[i] && Link(p1, p2, i, index))
    && (forall i, j :: Link(p1, p2, i, j) && visited[i] && !v0[i] ==> visited[j] || j == index)
    && (forall i, j :: Link(p1, p2, i, j) && visited[j] && !v0[j] && j != start ==> visited[i])
    && Agree(p1, p2, off, visited)
  }

  /** Linked distinct positions hold different genes in each parent. */
  lemma LinkedDiffer(p1: seq<Gene>, p2: seq<Gene>, i: int, j: int)
    requires Permutations(p1, p2) && Link(p1, p2, i, j) && i != j
    ensures p1[i] != p2[i] && p1[j] != p2[j]
  {
  }

  /** Assigning and visiting `index` keeps the parents in agreement. */
  lemma MarkAgrees(p1: seq<Gene>, p2: seq<Gene>, off: seq<Gene>, visited: seq<bool>, v0: seq<bool>,
                   start: nat, index: nat, take: bool)
    requires Permutations(p1, p2) && WalkState(p1, p2, off, visited, v0, start, index, take)
    ensures Agree(p1, p2, off[index := Pick(p1, p2, index, take)], visited[index := true])
  {
    var off', visited' := off[index := Pick(p1, p2, index, take)], visited[index := true];
    forall i, j | Link(p1, p2, i, j) && visited'[i] && visited'[j]
      ensures off'[i] == p1[i] <==> off'[j] == p1[j]
    {
      if i != j && (i == index || j == index) {
        LinkedDiffer(p1, p2, i, j);
        assert !v0[i] && !v0[j];
      }
    }
  }

  /** A walk that goes on to its link is again in a walk state. */
  lemma MarkContinues(p1: seq<Gene>, p2: seq<Gene>, off: seq<Gene>, visited: seq<bool>, v0: seq<bool>,
                      start: nat, index: nat, take: bool, next: nat)
    requires Permutations(p1, p2) && WalkState(p1, p2, off, visited, v0, start, index, take)
    requires Link(p1, p2, index, next) && next != start && !visited[index := true][next]
    ensures WalkState(p1, p2, off[index := Pick(p1, p2, index, take)], visited[index := true], v0, start, next, take)
  {
    var off', visited' := off[index := Pick(p1, p2, index, take)], visited[index := true];
    MarkAgrees(p1, p2, off, visited, v0, start, index, take);
    assert !v0[index];
    forall i, j | Link(p1, p2, i, j) && visited'[j] && !v0[j] && j != start
      ensures visited'[i]
    {
      if j == index {
        var i' :| 0 <= i' < |v0| && visited[i'] && !v0[i'] && Link(p1, p2, i', index);
        assert i' == i;
      }
    }
  }

  /** A walk stops only on coming back to its start, and then the visited
    * positions are closed under links again. */
  lemma MarkCloses(p1: seq<Gene>, p2: seq<Gene>, off: seq<Gene>, visited: seq<bool>, v0: seq<bool>,
                   start: nat, index: nat, take: bool, next: nat)
    requires Permutations(p1, p2) && WalkState(p1, p2, off, visited, v0, start, index, take)
    requires Link(p1, p2, index, next) && !(next != start && !visited[index := true][next])
    ensures next == start && Closed(p1, p2, visited[index := true])
  {
    var visited' := visited[index := true];
    assert !v0[index];
    if next != start {
      assert false;
    }
    forall i, j | Link(p1, p2, i, j)
      ensures visited'[i] == visited'[j]
    {
      if j == index && index != start {
        var i' :| 0 <= i' < |v0| && visited[i'] && !v0[i'] && Link(p1, p2, i', index);
        assert i' == i;
      }
      if j == start {
        assert i == index;
      }
    }
  }

  /** From a walk state the walk succeeds, visits its start, keeps what
    * was visited, and leaves the visited positions closed and in agreement. */
  lemma {:induction false} WalkPermutes(p1: seq<Gene>, p2: seq<Gene>, off: seq<Gene>, visited: seq<bool>, v0: seq<bool>,
                                        start: nat, index: nat, take: bool)
    requires Permutations(p1, p2) && WalkState(p1, p2, off, visited, v0, start, index, take)
    ensures Walk(p1, p2, off, visited, start, index, take).Ok?
    ensures var (o, v) := Walk(p1, p2, off, visited, start, index, take).value;
      && |v| == |visited| && Closed(p1, p2, v) && Agree(p1, p2, o, v) && v[start]
      && forall i :: 0 <= i < |visited| && visited[i] ==> v[i]
    decreases Unvisited(visited)
  {
    LinkFound(p1, p2, index);
    var next := IndexOf(p1, p2[index]).value;
    var off', visited' := off[index := Pick(p1, p2, index, take)], visited[index := true];
    MarkAgrees(p1, p2, off, visited, v0, start, index, take);
    if next != start && !visited'[next] {
      VisitShrinks(visited, index);
      MarkContinues(p1, p2, off, visited, v0, start, index, take, next);
      WalkPermutes(p1, p2, off', visited', v0, start, next, take);
    } else {
      MarkCloses(p1, p2, off, visited, v0, start, index, take, next);
    }
  }

  /** From closed, agreeing state with every position before `startIndex`
    * visited, the outer loop succeeds with an offspring whose linked
    * positions agree. */
  lemma {:induction false} CyclesPermute(p1: seq<Gene>, p2: seq<Gene>, off: seq<Gene>, visited: seq<bool>, startIndex: nat, cycleCount: nat)
    requires Permutations(p1, p2) && |off| == |visited| == |p1| && startIndex <= |visited|
    requires Closed(p1, p2, visited) && Agree(p1, p2, off, visited)
    requires forall j :: 0 <= j < startIndex ==> visited[j]
    ensures Cycles(p1, p2, off, visited, startIndex, cycleCount).Ok?
    ensures Agree(p1, p2, Cycles(p1, p2, off, visited, startIndex, cycleCount).value, seq(|p1|, _ => true))
    decreases |visited| - startIndex
  {
    if startIndex == |visited| {
      assert visited == seq(|p1|, _ => true);
    } else if visited[startIndex] {
      CyclesPermute(p1, p2, off, visited, startIndex + 1, cycleCount);
    } else {
      var take := cycleCount % 2 == 0;
      assert WalkState(p1, p2, off, visited, visited, startIndex, startIndex, take);
      WalkPermutes(p1, p2, off, visited, visited, startIndex, startIndex, take);
      var w := Walk(p1, p2, off, visited, startIndex, startIndex, take).value;
      CyclesPermute(p1, p2, w.0, w.1, startIndex + 1, cycleCount + 1);
    }
  }

  /** An offspring whose every position holds a parent's gene, with
    * linked positions agreeing, holds no gene twice. */
  lemma AgreeDistinct(p1: seq<Gene>, p2: seq<Gene>, r: seq<Gene>)
    requires Permutations(p1, p2) && Agree(p1, p2, r, seq(|p1|, _ => true))
    ensures Distinct(r)
  {
    var all := seq(|p1|, _ => true);
    forall a, b | 0 <= a < b < |r|
      ensures r[a] != r[b]
    {
      assert all[a] && all[b];
      if r[a] == r[b] {
        if r[a] == p1[a] && r[b] != p1[b] {
          assert Link(p1, p2, b, a);
        } else if r[a] != p1[a] && r[b] == p1[b] {
          assert Link(p1, p2, a, b);
        }
      }
    }
  }

  /** When both parents are permutations of one set of set genes, CX
    * succeeds and its offspring is a permutation of that set. */
  lemma CyclicPermutes(p1: seq<Gene>, p2: seq<Gene>)
    requires Permutations(p1, p2)
    ensures CyclicGenes(p1, p2).Ok?
    ensures var r := CyclicGenes(p1, p2).value;
      |r| == |p1| && Distinct(r) && Values(r) == Values(p1)
  {
    var off: seq<Gene>, visited: seq<bool> := seq(|p1|, _ => Null), seq(|p1|, _ => false);
    CyclesPermute(p1, p2, off, visited, 0, 0);
    var r := CyclicGenes(p1, p2).value;
    AgreeDistinct(p1, p2, r);
    assert Values(r) <= Values(p1) by {
      assert forall i :: 0 <= i < |r| ==> r[i] in Values(p1) || r[i] in Values(p2);
    }
    ValuesBound(r);
    ValuesBound(p1);
    SubsetSize(Values(r), Values(p1));
  }

  /** One do-while of the outer loop: the cycle from `startIndex`, written
    * into the offspring and visited arrays. */
  method TraceCycle(parent1: Chromosome, parent2: Chromosome, offspringGenes: array<Gene>, visited: array<bool>,
                    startIndex: nat, takeFromParent1: bool) returns (failure: Option<Exception>)
    requires Mates(parent1, parent2) && offspringGenes != parent1.genes && offspringGenes != parent2.genes
    requires offspringGenes.Length == visited.Length == parent1.genes.Length
    requires startIndex < visited.Length && !visited[startIndex] && AllFit(parent1.kind, offspringGenes[..])
    modifies offspringGenes, visited
    ensures AllFit(parent1.kind, offspringGenes[..])
    ensures match Walk(parent1.genes[..], parent2.genes[..], old(offspringGenes[..]), old(visited[..]),
                       startIndex, startIndex, takeFromParent1)
      case Thrown(e) => failure == Some(e)
      case Ok(state) => failure == None && offspringGenes[..] == state.0 && visited[..] == state.1
  {
    ghost var p1, p2 := parent1.genes[..], parent2.genes[..];
    ghost var walk := Walk(p1, p2, offspringGenes[..], visited[..], startIndex, startIndex, takeFromParent1);
    var index: nat := startIndex;
    var going := true;
    while going
      invariant going ==> (index < visited.Length && !visited[index]
        && Walk(p1, p2, offspringGenes[..], visited[..], startIndex, index, takeFromParent1) == walk)
      invariant !going ==> walk == Ok((offspringGenes[..], visited[..]))
      invariant AllFit(parent1.kind, offspringGenes[..])
      decreases Unvisited(visited[..])
    {
      VisitShrinks(visited[..], index);
      offspringGenes[index] := if takeFromParent1 then parent1.genes[index] else parent2.genes[index];
      visited[index] := true;
      var geneFromP2 := parent2.genes[index];
      var found := IndexOfGene(parent1, geneFromP2);
      if found.Thrown? {
        return Some(found.exception);
      }
      index := found.value;
      going := index != startIndex && !visited[index];
    }
    failure := None;
  }

  method CyclicCross(parent1: Chromosome, parent2: Chromosome) returns (r: Outcome<Chromosome>)
    requires Mates(parent1, parent2)
    ensures match CyclicGenes(parent1.genes[..], parent2.genes[..])
      case Ok(genes) => r.Ok? && Offspring(parent1, r.value) && r.value.genes[..] == genes
      case Thrown(e) => r == Thrown(e)
  {
    var length := parent1.genes.Length;
    ghost var p1, p2 := parent1.genes[..], parent2.genes[..];
    var offspringGenes := new Gene[length](_ => Null);
    var visited := new bool[length](_ => false);
    assert offspringGenes[..] == seq(length, _ => Null) && visited[..] == seq(length, _ => false);
    ghost var target := CyclicGenes(p1, p2);
    var cycleCount := 0;
    for startIndex := 0 to length
      invariant Cycles(p1, p2, offspringGenes[..], visited[..], startIndex, cycleCount) == target
      invariant AllFit(parent1.kind, offspringGenes[..])
    {
      if !visited[startIndex] {
        var failure := TraceCycle(parent1, parent2, offspringGenes, visited, startIndex, cycleCount % 2 == 0);
        if failure.Some? {
          return Thrown(failure.value);
        }
        cycleCount := cycleCount + 1;
      }
    }
    var offspring := parent1.Clone();
    for i := 0 to length
      invariant offspring.genes[..i] == offspringGenes[..i] && offspring.Valid()
      modifies offspring.genes
    {
      var _ := offspring.SetGen(i, offspringGenes[i]);
    }
    assert offspring.genes[..] == offspring.genes[..length];
    r := Ok(offspring);
  }
}
