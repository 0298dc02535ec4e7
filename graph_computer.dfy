/** The graph-computer vocabulary shared by the Hadoop-based graph computers. */
module GraphComputers {
  import opened Wrappers

  datatype Isolation = BSP | DirtyBSP

  datatype ResultGraph = Original | New

  datatype Persist = Nothing | VertexProperties | Edges

  /** A MapReduce job, as `equals` identifies it in the computer's job set. */
  datatype MapReduce = MapReduce(id: nat)

  /**
   * A vertex program, reduced to what submission consults: the MapReduce
   * jobs it needs (`getMapReducers`) and its preferred result graph and
   * persistence.
   */
  datatype VertexProgram = VertexProgram(id: nat, mapReducers: set<MapReduce>,
                                         preferredResultGraph: ResultGraph, preferredPersist: Persist)

  /**
   * The exceptions of `GraphComputer.Exceptions`, the one program validation
   * throws, and the null-pointer exception a null configuration argument raises.
   */
  datatype ComputerError =
    | NullPointer
    | IsolationNotSupported(isolation: Isolation)
    | AlreadySubmitted
    | NoVertexProgramNorMapReducers
    | InvalidProgram
    | CombinationNotSupported(resultGraph: ResultGraph, persist: Persist)

  /** The jobs a submission adds to the computer's own: those of its vertex program, if any. */
  function ProgramJobs(program: Option<VertexProgram>): set<MapReduce>
  {
    if program.Some? then program.value.mapReducers else {}
  }

  /** The persistence used when none was chosen: the program's preference, or no persistence without a program. */
  function DefaultPersist(program: Option<VertexProgram>): Persist
  {
    if program.Some? then program.value.preferredPersist else Nothing
  }

  /** The result graph used when none was chosen: the program's preference, or the original graph without a program. */
  function DefaultResultGraph(program: Option<VertexProgram>): ResultGraph
  {
    if program.Some? then program.value.preferredResultGraph else Original
  }

  /** The checks every submission makes before anything else: not yet executed, something to run, a valid program. */
  predicate PassesSubmissionChecks(executed: bool, program: Option<VertexProgram>, jobs: set<MapReduce>,
                                   validProgram: VertexProgram -> bool)
  {
    && !executed
    && (program.Some? || jobs != {})
    && (program.Some? ==> validProgram(program.value))
  }

  /** The first of those checks to fail, in the order the computers make them. */
  function SubmissionError(executed: bool, program: Option<VertexProgram>, jobs: set<MapReduce>,
                           validProgram: VertexProgram -> bool): (e: ComputerError)
    requires !PassesSubmissionChecks(executed, program, jobs, validProgram)
    ensures executed ==> e == AlreadySubmitted
    ensures !executed && program.None? && jobs == {} ==> e == NoVertexProgramNorMapReducers
    ensures !executed && program.Some? && !validProgram(program.value) ==> e == InvalidProgram
  {
    if executed then AlreadySubmitted
    else if program.None? && jobs == {} then NoVertexProgramNorMapReducers
    else InvalidProgram
  }
}
