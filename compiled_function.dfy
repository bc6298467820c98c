/** `MTLCompiledFunction`: a function and its pipeline state, compiled for
    one set of constant values. `compile` as written never records the
    constant values it compiled for, so a function compiled with constants
    reports forever that it needs compiling; `CompileAsWritten` keeps that
    behaviour and `Compile` also records the constant values. */
module CompiledFunctions {
  import opened Wrappers
  import opened MetalFunctions

  class CompiledFunction {
    /** `function`, a reserved word here. */
    var metalFunction: Option<MetalFunction>
    var pipelineState: Option<PipelineState>
    var functionParameters: Option<ConstantValues>

    constructor ()
      ensures metalFunction.None? && pipelineState.None? && functionParameters.None?
    {
      metalFunction, pipelineState, functionParameters := None, None, None;
    }

    /** `requiresCompilation(newFunctionParameters:)`: compiling is needed
        until both the function and its pipeline state exist and were built
        for these very parameters. */
    predicate RequiresCompilation(newFunctionParameters: Option<ConstantValues>)
      reads this
      ensures !RequiresCompilation(newFunctionParameters) <==>
        metalFunction.Some? && pipelineState.Some? && functionParameters == newFunctionParameters
    {
      if metalFunction.None? then true
      else if pipelineState.None? then true
      else if newFunctionParameters != functionParameters then true
      else false
    }

    /** Both steps of a compile succeed. */
    static predicate Succeeds(functionName: string, library: Option<Library>, constantValues: Option<ConstantValues>,
                              makeFunction: FunctionMaker, makePipelineState: PipelineMaker)
    {
      && library.Some?
      && makeFunction(library.value, functionName, constantValues).Some?
      && makePipelineState(makeFunction(library.value, functionName, constantValues).value).Some?
    }

    /** `compile(functionName:library:device:constantValues:)` as written:
        the function and pipeline state are set together and only when both
        steps succeed; `functionParameters` is never assigned. */
    method CompileAsWritten(functionName: string, library: Option<Library>, constantValues: Option<ConstantValues>,
                            makeFunction: FunctionMaker, makePipelineState: PipelineMaker)
      modifies this`metalFunction, this`pipelineState
      ensures !Succeeds(functionName, library, constantValues, makeFunction, makePipelineState) ==>
        metalFunction == old(metalFunction) && pipelineState == old(pipelineState)
      ensures Succeeds(functionName, library, constantValues, makeFunction, makePipelineState) ==>
        && metalFunction == makeFunction(library.value, functionName, constantValues)
        && pipelineState == makePipelineState(metalFunction.value)
    {
      if library.None? {
        return;
      }
      var compiledFunction := makeFunction(library.value, functionName, constantValues);
      if compiledFunction.None? {
        return;
      }
      var state := makePipelineState(compiledFunction.value);
      if state.None? {
        return;
      }
      metalFunction := compiledFunction;
      pipelineState := state;
    }

    /** `compile` recording the constant values it compiled for, so that a
        successful compile is not asked for again with the same values. */
    method Compile(functionName: string, library: Option<Library>, constantValues: Option<ConstantValues>,
                   makeFunction: FunctionMaker, makePipelineState: PipelineMaker)
      modifies this`metalFunction, this`pipelineState, this`functionParameters
      ensures !Succeeds(functionName, library, constantValues, makeFunction, makePipelineState) ==>
        && metalFunction == old(metalFunction) && pipelineState == old(pipelineState)
        && functionParameters == old(functionParameters)
      ensures Succeeds(functionName, library, constantValues, makeFunction, makePipelineState) ==>
        && metalFunction == makeFunction(library.value, functionName, constantValues)
        && pipelineState == makePipelineState(metalFunction.value)
        && functionParameters == constantValues
      ensures Succeeds(functionName, library, constantValues, makeFunction, makePipelineState) ==>
        !RequiresCompilation(constantValues)
      ensures Succeeds(functionName, library, constantValues, makeFunction, makePipelineState) ==>
        forall other :: other != constantValues ==> RequiresCompilation(other)
    {
      CompileAsWritten(functionName, library, constantValues, makeFunction, makePipelineState);
      if Succeeds(functionName, library, constantValues, makeFunction, makePipelineState) {
        functionParameters := constantValues;
      }
    }
  }

  /** The discrepancy: on a new function, a successful compile with
      constant values still requires compiling with those values. */
  method CompiledWithConstantsStillRequiresCompilation(functionName: string, library: Library, k: ConstantValues,
                                                       makeFunction: FunctionMaker, makePipelineState: PipelineMaker)
      returns (compiled: CompiledFunction)
    requires CompiledFunction.Succeeds(functionName, Some(library), Some(k), makeFunction, makePipelineState)
    ensures compiled.metalFunction.Some? && compiled.pipelineState.Some?
    ensures compiled.RequiresCompilation(Some(k))
  {
    compiled := new CompiledFunction();
    compiled.CompileAsWritten(functionName, Some(library), Some(k), makeFunction, makePipelineState);
  }

  /** With the values recorded, the same compile is asked for only once. */
  method CompiledWithConstantsIsUpToDate(functionName: string, library: Library, k: ConstantValues,
                                         makeFunction: FunctionMaker, makePipelineState: PipelineMaker)
      returns (compiled: CompiledFunction)
    requires CompiledFunction.Succeeds(functionName, Some(library), Some(k), makeFunction, makePipelineState)
    ensures !compiled.RequiresCompilation(Some(k))
    ensures compiled.RequiresCompilation(None)
  {
    compiled := new CompiledFunction();
    compiled.Compile(functionName, Some(library), Some(k), makeFunction, makePipelineState);
  }
}
