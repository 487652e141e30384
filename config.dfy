/**
 * The configuration record of a run: sizes, rates, the optional early-stop
 * target and the threading switch, with the defaults the checker falls
 * back on.
 */
module Configs {

  /** The values of every configuration field at one moment. */
  datatype ConfigValues = ConfigValues(
    populationSize: int,
    generations: int,
    genLength: int,
    mutationRate: real,
    selectionRate: real,
    approximateFinalFit: real,
    delta: real,
    multithread: bool,
    threads: int,
    secondOperatorRate: real)

  /** What a new configuration holds before any setter runs. */
  const InitialValues: ConfigValues :=
    ConfigValues(0, 0, 0, 0.0, 0.0, -1.0, 0.0, false, 0, 0.0)

  /** The fields a default configuration sets; the rest keep their initial values. */
  const DefaultValues: ConfigValues :=
    InitialValues.(populationSize := 10000, generations := 100, genLength := 16,
                   mutationRate := 0.01, selectionRate := 0.2, multithread := true, threads := 4)

  class Config {
    var populationSize: int
    var generations: int
    var genLength: int
    var mutationRate: real
    var selectionRate: real
    var approximateFinalFit: real
    var delta: real
    var multithread: bool
    var threads: int
    var secondOperatorRate: real

    function Snapshot(): ConfigValues
      reads this
    {
      ConfigValues(populationSize, generations, genLength, mutationRate, selectionRate,
                   approximateFinalFit, delta, multithread, threads, secondOperatorRate)
    }

    /** A configuration with the field initialisers only. */
    constructor ()
      ensures Snapshot() == InitialValues
    {
      populationSize := 0;
      generations := 0;
      genLength := 0;
      mutationRate := 0.0;
      selectionRate := 0.0;
      approximateFinalFit := -1.0;
      delta := 0.0;
      multithread := false;
      threads := 0;
      secondOperatorRate := 0.0;
    }

    /** The default configuration: the initial values, then seven setters. */
    constructor Default()
      ensures Snapshot() == DefaultValues
      ensures populationSize == 10000 && generations == 100 && genLength == 16
      ensures mutationRate == 0.01 && selectionRate == 0.2 && multithread && threads == 4
      ensures approximateFinalFit == -1.0 && delta == 0.0 && secondOperatorRate == 0.0
    {
      populationSize := 0;
      generations := 0;
      genLength := 0;
      mutationRate := 0.0;
      selectionRate := 0.0;
      approximateFinalFit := -1.0;
      delta := 0.0;
      multithread := false;
      threads := 0;
      secondOperatorRate := 0.0;
      new;
      SetPopulationSize(10000);
      SetGenerations(100);
      SetGenLength(16);
      SetMutationRate(0.01);
      SetSelectionRate(0.2);
      SetMultithread(true);
      SetThreads(4);
    }

    method SetPopulationSize(populationSize: int)
      modifies this
      ensures Snapshot() == old(Snapshot()).(populationSize := populationSize)
    {
      this.populationSize := populationSize;
    }

    method SetGenerations(generations: int)
      modifies this
      ensures Snapshot() == old(Snapshot()).(generations := generations)
    {
      this.generations := generations;
    }

    method SetGenLength(genLength: int)
      modifies this
      ensures Snapshot() == old(Snapshot()).(genLength := genLength)
    {
      this.genLength := genLength;
    }

    method SetMutationRate(mutationRate: real)
      modifies this
      ensures Snapshot() == old(Snapshot()).(mutationRate := mutationRate)
    {
      this.mutationRate := mutationRate;
    }

    method SetSelectionRate(selectionRate: real)
      modifies this
      ensures Snapshot() == old(Snapshot()).(selectionRate := selectionRate)
    {
      this.selectionRate := selectionRate;
    }

    method SetMultithread(multithread: bool)
      modifies this
      ensures Snapshot() == old(Snapshot()).(multithread := multithread)
    {
      this.multithread := multithread;
    }

    method SetThreads(threads: int)
      modifies this
      ensures Snapshot() == old(Snapshot()).(threads := threads)
    {
      this.threads := threads;
    }

    method SetApproximateFinalFit(approximateFinalFit: real)
      modifies this
      ensures Snapshot() == old(Snapshot()).(approximateFinalFit := approximateFinalFit)
    {
      this.approximateFinalFit := approximateFinalFit;
    }

    method SetDelta(delta: real)
      modifies this
      ensures Snapshot() == old(Snapshot()).(delta := delta)
    {
      this.delta := delta;
    }

    method SetSecondOperatorRate(secondOperatorRate: real)
      modifies this
      ensures Snapshot() == old(Snapshot()).(secondOperatorRate := secondOperatorRate)
    {
      this.secondOperatorRate := secondOperatorRate;
    }
  }
}
