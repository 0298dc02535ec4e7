/**
 * The configuration and one-shot submission checks of the Hadoop graph
 * computers, and the features they declare.
 */
module HadoopGraphComputers {
  import opened Wrappers
  import opened GraphComputers

  /** The capabilities `features()` answers with a constant. */
  datatype Capability =
    | VertexAddition | VertexRemoval | VertexPropertyRemoval
    | EdgeAddition | EdgeRemoval | EdgePropertyAddition | EdgePropertyRemoval
    | DirectObjects

  /** The seven mutation flags this computer overrides, and direct-object support, are all false. */
  function Supports(capability: Capability): (r: bool)
    ensures !r
  {
    false
  }

  /** Only bulk-synchronous-parallel isolation is supported. */
  function SupportsIsolation(isolation: Isolation): (r: bool)
    ensures r <==> isolation == BSP
  {
    isolation == BSP
  }

  /**
   * The graph output format configured for the Hadoop graph: either it
   * knows which result-graph/persist combinations it can write, or it does
   * not say.
   */
  datatype OutputFormat =
    | PersistResultGraphAware(supportsCombination: (ResultGraph, Persist) -> bool)
    | Unaware

  /**
   * An aware output format decides; an unaware one is assumed to support
   * every combination (the source logs a warning).
   */
  function SupportsResultGraphPersistCombination(output: OutputFormat, resultGraph: ResultGraph, persist: Persist): (r: bool)
    ensures output.Unaware? ==> r
    ensures output.PersistResultGraphAware? ==> (r <==> output.supportsCombination(resultGraph, persist))
  {
    match output
    case PersistResultGraphAware(supportsCombination) => supportsCombination(resultGraph, persist)
    case Unaware => true
  }

  class HadoopGraphComputer {
    var executed: bool
    var mapReducers: set<MapReduce>
    var vertexProgram: Option<VertexProgram>
    var resultGraph: Option<ResultGraph>
    var persist: Option<Persist>
    /** The output format of the Hadoop graph's configuration. */
    const output: OutputFormat
    /** Whether the program's own checks accept this computer (`validateProgramOnComputer` does not throw). */
    const validProgram: VertexProgram -> bool

    constructor (output: OutputFormat, validProgram: VertexProgram -> bool)
      ensures !executed && mapReducers == {} && vertexProgram.None? && resultGraph.None? && persist.None?
      ensures this.output == output && this.validProgram == validProgram
    {
      executed := false;
      mapReducers := {};
      vertexProgram := None;
      resultGraph := None;
      persist := None;
      this.output := output;
      this.validProgram := validProgram;
    }

    /**
     * `isolation`: accepts exactly the isolation the features declare
     * supported, changing nothing; a null isolation throws at `equals`.
     */
    method SetIsolation(isolation: Option<Isolation>) returns (r: Outcome<ComputerError>)
      ensures isolation.None? ==> r == Fail(NullPointer)
      ensures isolation.Some? ==> (r.Pass? <==> SupportsIsolation(isolation.value))
      ensures isolation.Some? && r.Fail? ==> r.error == IsolationNotSupported(isolation.value)
    {
      if isolation.None? {
        return Fail(NullPointer);
      }
      if isolation.value != BSP {
        return Fail(IsolationNotSupported(isolation.value));
      }
      return Pass;
    }

    /** `result`: records the chosen result graph; a null one throws at `Optional.of` and changes nothing. */
    method SetResult(resultGraph: Option<ResultGraph>) returns (r: Outcome<ComputerError>)
      modifies this`resultGraph
      ensures r.Pass? <==> resultGraph.Some?
      ensures r.Pass? ==> this.resultGraph == resultGraph
      ensures r.Fail? ==> r.error == NullPointer && this.resultGraph == old(this.resultGraph)
    {
      if resultGraph.None? {
        return Fail(NullPointer);
      }
      this.resultGraph := resultGraph;
      return Pass;
    }

    /** `persist`: records the chosen persistence; a null one throws at `Optional.of` and changes nothing. */
    method SetPersist(persist: Option<Persist>) returns (r: Outcome<ComputerError>)
      modifies this`persist
      ensures r.Pass? <==> persist.Some?
      ensures r.Pass? ==> this.persist == persist
      ensures r.Fail? ==> r.error == NullPointer && this.persist == old(this.persist)
    {
      if persist.None? {
        return Fail(NullPointer);
      }
      this.persist := persist;
      return Pass;
    }

    method SetProgram(vertexProgram: VertexProgram)
      modifies this`vertexProgram
      ensures this.vertexProgram == Some(vertexProgram)
    {
      this.vertexProgram := Some(vertexProgram);
    }

    method AddMapReduce(mapReduce: MapReduce)
      modifies this`mapReducers
      ensures mapReducers == old(mapReducers) + {mapReduce}
    {
      mapReducers := mapReducers + {mapReduce};
    }

    /**
     * `validateStatePriorToExecution`: marks the computer executed before any
     * check, so only the first call can succeed; then requires a program or a
     * job, validates the program and adds its jobs, fills in the unset
     * persistence and result graph, and rejects a combination the output
     * format does not support.
     */
    method ValidateStatePriorToExecution() returns (r: Outcome<ComputerError>)
      modifies this`executed, this`mapReducers, this`resultGraph, this`persist
      ensures executed
      ensures !PassesSubmissionChecks(old(executed), vertexProgram, old(mapReducers), validProgram) ==>
                && r == Fail(SubmissionError(old(executed), vertexProgram, old(mapReducers), validProgram))
                && mapReducers == old(mapReducers) && resultGraph == old(resultGraph) && persist == old(persist)
      ensures PassesSubmissionChecks(old(executed), vertexProgram, old(mapReducers), validProgram) ==>
                && mapReducers == old(mapReducers) + ProgramJobs(vertexProgram)
                && persist == Some(if old(persist).Some? then old(persist).value else DefaultPersist(vertexProgram))
                && resultGraph == Some(if old(resultGraph).Some? then old(resultGraph).value else DefaultResultGraph(vertexProgram))
                && (r.Pass? <==> SupportsResultGraphPersistCombination(output, resultGraph.value, persist.value))
                && (r.Fail? ==> r.error == CombinationNotSupported(resultGraph.value, persist.value))
    {
      if executed {
        return Fail(AlreadySubmitted);
      } else {
        executed := true;
      }
      if vertexProgram.None? && mapReducers == {} {
        return Fail(NoVertexProgramNorMapReducers);
      }
      if vertexProgram.Some? {
        if !validProgram(vertexProgram.value) {
          return Fail(InvalidProgram);
        }
        mapReducers := mapReducers + vertexProgram.value.mapReducers;
      }
      if persist.None? {
        persist := Some(if vertexProgram.None? then Nothing else vertexProgram.value.preferredPersist);
      }
      if resultGraph.None? {
        resultGraph := Some(if vertexProgram.None? then Original else vertexProgram.value.preferredResultGraph);
      }
      if !SupportsResultGraphPersistCombination(output, resultGraph.value, persist.value) {
        return Fail(CombinationNotSupported(resultGraph.value, persist.value));
      }
      return Pass;
    }
  }
}
