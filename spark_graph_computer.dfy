/** The configuration and one-shot submission checks of the Spark graph computer. */
module SparkGraphComputers {
  import opened Wrappers
  import opened GraphComputers

  class SparkGraphComputer {
    var executed: bool
    var mapReduces: set<MapReduce>
    var vertexProgram: Option<VertexProgram>
    /** Whether the program's own checks accept this computer (`validateProgramOnComputer` does not throw). */
    const validProgram: VertexProgram -> bool

    constructor (validProgram: VertexProgram -> bool)
      ensures !executed && mapReduces == {} && vertexProgram.None? && this.validProgram == validProgram
    {
      executed := false;
      mapReduces := {};
      vertexProgram := None;
      this.validProgram := validProgram;
    }

    /**
     * `isolation`: only bulk-synchronous-parallel isolation is accepted;
     * nothing changes. A null isolation throws at `equals`.
     */
    method SetIsolation(isolation: Option<Isolation>) returns (r: Outcome<ComputerError>)
      ensures isolation.None? ==> r == Fail(NullPointer)
      ensures isolation.Some? ==> (r.Pass? <==> isolation.value == BSP)
      ensures isolation.Some? && r.Fail? ==> r.error == IsolationNotSupported(isolation.value)
    {
      if isolation.None? {
        return Fail(NullPointer);
      }
      if isolation.value != BSP {
        return Fail(IsolationNotSupported(isolation.value));
      }
      return Pass;
    }

    /** `program`: replaces any earlier program. */
    method SetProgram(vertexProgram: VertexProgram)
      modifies this`vertexProgram
      ensures this.vertexProgram == Some(vertexProgram)
    {
      this.vertexProgram := Some(vertexProgram);
    }

    /** `mapReduce`: adds the job to the set, so adding a job twice is adding it once. */
    method AddMapReduce(mapReduce: MapReduce)
      modifies this`mapReduces
      ensures mapReduces == old(mapReduces) + {mapReduce}
      ensures mapReduce in old(mapReduces) ==> mapReduces == old(mapReduces)
    {
      mapReduces := mapReduces + {mapReduce};
    }

    /**
     * `submit`, up to the asynchronous job it would start: marks the computer
     * executed before any check, so only the first call can succeed; then
     * requires a program or a job and validates the program. The job set is
     * left as it is.
     */
    method Submit() returns (r: Outcome<ComputerError>)
      modifies this`executed
      ensures executed
      ensures r.Pass? <==> PassesSubmissionChecks(old(executed), vertexProgram, mapReduces, validProgram)
      ensures r.Fail? ==> r.error == SubmissionError(old(executed), vertexProgram, mapReduces, validProgram)
    {
      if executed {
        return Fail(AlreadySubmitted);
      } else {
        executed := true;
      }
      if vertexProgram.None? && mapReduces == {} {
        return Fail(NoVertexProgramNorMapReducers);
      }
      if vertexProgram.Some? && !validProgram(vertexProgram.value) {
        return Fail(InvalidProgram);
      }
      return Pass;
    }
  }
}
