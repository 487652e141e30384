/**
 * The checks an engine runs: the repair of its configuration when it is
 * built, the presence of its four parts, and the presence of the primary
 * operators before a run.
 */
module Checker {
  import opened Common
  import opened Chromosomes
  import opened Populations
  import opened Configs

  /** The configuration `checkConfig` leaves behind: every non-positive
    * size or rate replaced by its default, the threading switch turned on
    * when several threads are asked for, the thread count set to the
    * default when threading is on with one thread or none, and the early
    * stop cleared (tolerance 0, target -1) unless both the target and
    * its tolerance are positive. */
  function CheckedValues(v: ConfigValues): ConfigValues
  {
    Targeted(Threaded(Resized(v)))
  }

  /** The first five checks: non-positive sizes and rates take their defaults. */
  function Resized(v: ConfigValues): ConfigValues
  {
    v.(populationSize := if v.populationSize <= 0 then DefaultValues.populationSize else v.populationSize,
       generations := if v.generations <= 0 then DefaultValues.generations else v.generations,
       genLength := if v.genLength <= 0 then DefaultValues.genLength else v.genLength,
       mutationRate := if v.mutationRate <= 0.0 then DefaultValues.mutationRate else v.mutationRate,
       selectionRate := if v.selectionRate <= 0.0 then DefaultValues.selectionRate else v.selectionRate)
  }

  /** The two threading checks, in order. */
  function Threaded(v: ConfigValues): ConfigValues
  {
    var switched := if v.threads > 1 && !v.multithread then v.(multithread := DefaultValues.multithread) else v;
    if switched.threads <= 1 && switched.multithread then switched.(threads := DefaultValues.threads) else switched
  }

  /** The early-stop check. */
  function Targeted(v: ConfigValues): ConfigValues
  {
    if v.delta > 0.0 && v.approximateFinalFit > 0.0 then v
    else v.(delta := 0.0, approximateFinalFit := -1.0)
  }

  /** A configuration `checkConfig` has nothing to repair in. */
  predicate Usable(v: ConfigValues)
  {
    && v.populationSize > 0 && v.generations > 0 && v.genLength > 0
    && v.mutationRate > 0.0 && v.selectionRate > 0.0
    && (v.multithread <==> v.threads > 1)
    && ((v.delta > 0.0 && v.approximateFinalFit > 0.0) || (v.delta == 0.0 && v.approximateFinalFit == -1.0))
  }

  /** After the check every size and rate is positive, threading is on
    * exactly when more than one thread is configured, the early stop is
    * either fully set or cleared, and the second-operator rate is not
    * touched. */
  lemma CheckedIsUsable(v: ConfigValues)
    ensures Usable(CheckedValues(v))
    ensures CheckedValues(v).secondOperatorRate == v.secondOperatorRate
  {
  }

  /** A usable configuration passes unchanged. */
  lemma UsableIsKept(v: ConfigValues)
    requires Usable(v)
    ensures CheckedValues(v) == v
  {
  }

  /** Checking twice changes nothing the first check did not. */
  lemma CheckIsIdempotent(v: ConfigValues)
    ensures CheckedValues(CheckedValues(v)) == CheckedValues(v)
  {
    CheckedIsUsable(v);
    UsableIsKept(CheckedValues(v));
  }

  /** Sizes and rates that are already positive are kept, and so are a
    * thread count above one and an early stop whose target and tolerance
    * are both positive. */
  lemma CheckKeepsValidFields(v: ConfigValues)
    ensures v.populationSize > 0 ==> CheckedValues(v).populationSize == v.populationSize
    ensures v.generations > 0 ==> CheckedValues(v).generations == v.generations
    ensures v.genLength > 0 ==> CheckedValues(v).genLength == v.genLength
    ensures v.mutationRate > 0.0 ==> CheckedValues(v).mutationRate == v.mutationRate
    ensures v.selectionRate > 0.0 ==> CheckedValues(v).selectionRate == v.selectionRate
    ensures v.threads > 1 ==> CheckedValues(v).threads == v.threads && CheckedValues(v).multithread
    ensures v.delta > 0.0 && v.approximateFinalFit > 0.0 ==>
      CheckedValues(v).delta == v.delta && CheckedValues(v).approximateFinalFit == v.approximateFinalFit
  {
  }

  /** A new configuration takes the default sizes and rates but stays
    * single-threaded, since its thread count is 0; the default
    * configuration is left as it is. */
  lemma CheckOfInitialAndDefault()
    ensures CheckedValues(InitialValues) == DefaultValues.(multithread := false, threads := 0)
    ensures CheckedValues(DefaultValues) == DefaultValues
  {
  }

  /** Repairs `conf` through its setters, in the order of the checks. */
  method CheckConfig(conf: Config)
    modifies conf
    ensures conf.Snapshot() == CheckedValues(old(conf.Snapshot()))
  {
    var def := new Config.Default();
    RepairSizes(conf, def);
    RepairThreads(conf, def);
    if !(conf.delta > 0.0 && conf.approximateFinalFit > 0.0) {
      conf.SetDelta(0.0);
      conf.SetApproximateFinalFit(-1.0);
    }
  }

  /** The first five checks, reading the defaults from `def`. */
  method RepairSizes(conf: Config, def: Config)
    requires def.Snapshot() == DefaultValues && conf != def
    modifies conf
    ensures conf.Snapshot() == Resized(old(conf.Snapshot())) && def.Snapshot() == DefaultValues
  {
    if conf.populationSize <= 0 {
      conf.SetPopulationSize(def.populationSize);
    }
    if conf.generations <= 0 {
      conf.SetGenerations(def.generations);
    }
    if conf.genLength <= 0 {
      conf.SetGenLength(def.genLength);
    }
    if conf.mutationRate <= 0.0 {
      conf.SetMutationRate(def.mutationRate);
    }
    if conf.selectionRate <= 0.0 {
      conf.SetSelectionRate(def.selectionRate);
    }
  }

  /** The two threading checks, reading the defaults from `def`. */
  method RepairThreads(conf: Config, def: Config)
    requires def.Snapshot() == DefaultValues && conf != def
    modifies conf
    ensures conf.Snapshot() == Threaded(old(conf.Snapshot()))
  {
    if conf.threads > 1 && !conf.multithread {
      conf.SetMultithread(def.multithread);
    }
    if conf.threads <= 1 && conf.multithread {
      conf.SetThreads(def.threads);
    }
  }

  /** The failure of `checkEngine`: the first missing part among the
    * population, the default chromosome, the fitness function and the
    * configuration, in that order. */
  function CheckEngine(population: Population?, defChromosome: Chromosome?,
                       fitness: Option<seq<Gene> -> real>, config: Config?): (r: Option<Exception>)
    ensures r == None <==> population != null && defChromosome != null && fitness.Some? && config != null
    ensures population == null ==> r == Some(IllegalArgument("Population is missing."))
    ensures population != null && defChromosome == null ==> r == Some(IllegalArgument("Default chromosome is missing."))
    ensures population != null && defChromosome != null && fitness.None? ==>
      r == Some(IllegalArgument("Fittness function is missing."))
    ensures population != null && defChromosome != null && fitness.Some? && config == null ==>
      r == Some(IllegalArgument("Config is missing."))
  {
    if population == null then Some(IllegalArgument("Population is missing."))
    else if defChromosome == null then Some(IllegalArgument("Default chromosome is missing."))
    else if fitness.None? then Some(IllegalArgument("Fittness function is missing."))
    else if config == null then Some(IllegalArgument("Config is missing."))
    else None
  }

  /** The failure of `checkOperators`: the first missing primary operator
    * among mutation, crossover and selection, in that order. */
  function OperatorFailure(hasMutation: bool, hasCrossover: bool, hasSelection: bool): (r: Option<Exception>)
    ensures r == None <==> hasMutation && hasCrossover && hasSelection
    ensures !hasMutation ==> r == Some(NullPointer("Mutation operator is missing."))
    ensures hasMutation && !hasCrossover ==> r == Some(NullPointer("Crossover operator is missing."))
    ensures hasMutation && hasCrossover && !hasSelection ==> r == Some(NullPointer("Selection operator is missing."))
  {
    if !hasMutation then Some(NullPointer("Mutation operator is missing."))
    else if !hasCrossover then Some(NullPointer("Crossover operator is missing."))
    else if !hasSelection then Some(NullPointer("Selection operator is missing."))
    else None
  }

  /** Checks the primary operators; when they are all present and some
    * secondary operator is set, the second-operator rate becomes 0.25,
    * whatever it was. Nothing else in the configuration changes. */
  method CheckOperators(conf: Config, hasMutation: bool, hasCrossover: bool, hasSelection: bool,
                        hasSecondCrossover: bool, hasSecondMutation: bool)
    returns (r: Option<Exception>)
    modifies conf
    ensures r == OperatorFailure(hasMutation, hasCrossover, hasSelection)
    ensures conf.Snapshot() ==
      if r == None && (hasSecondCrossover || hasSecondMutation)
      then old(conf.Snapshot()).(secondOperatorRate := 0.25)
      else old(conf.Snapshot())
  {
    if !hasMutation {
      return Some(NullPointer("Mutation operator is missing."));
    }
    if !hasCrossover {
      return Some(NullPointer("Crossover operator is missing."));
    }
    if !hasSelection {
      return Some(NullPointer("Selection operator is missing."));
    }
    if hasSecondCrossover || hasSecondMutation {
      conf.SetSecondOperatorRate(0.25);
    }
    r := None;
  }
}
