/** Compute-pipeline caches over the Metal library. Metal objects are
    modelled as values: a compiled function is named by its function name
    and constant values, and a pipeline state by the function it was built
    from. The library's `makeFunction` and the device's
    `makeComputePipelineState` are foreign calls and become parameters that
    either give a value or fail. `MTLFunctionConstantValues` is compared by
    value. Failure logging is left out. */
module MetalFunctions {
  import opened Wrappers

  datatype ConstantValues = ConstantValues(values: seq<int>)
  datatype MetalFunction = MetalFunction(name: string, constants: Option<ConstantValues>)
  datatype PipelineState = PipelineState(builtFrom: MetalFunction)
  datatype Library = Library(name: string)

  /** `makeFunction(name:)` or `makeFunction(name:constantValues:)`. */
  type FunctionMaker = (Library, string, Option<ConstantValues>) -> Option<MetalFunction>
  /** `makeComputePipelineState(function:)`. */
  type PipelineMaker = MetalFunction -> Option<PipelineState>
}

/** `PipelineStateBundle`: one constant-free pipeline state and a cache of
    pipeline states per set of constant values. */
module PipelineStates {
  import opened Wrappers
  import opened MetalFunctions

  class PipelineStateBundle {
    /** `function`, a reserved word here. */
    var metalFunction: Option<MetalFunction>
    var pipelineStateNoOptions: Option<PipelineState>
    var pipelineStates: map<ConstantValues, PipelineState>

    constructor ()
      ensures metalFunction.None? && pipelineStateNoOptions.None? && pipelineStates == map[]
    {
      metalFunction, pipelineStateNoOptions := None, None;
      pipelineStates := map[];
    }

    /** `getPipelineState(functionParameters:)`: the constant-free state
        without parameters, otherwise the cached entry, if any. */
    function GetPipelineState(functionParameters: Option<ConstantValues>): (r: Option<PipelineState>)
      reads this
      ensures functionParameters.None? ==> r == pipelineStateNoOptions
      ensures functionParameters.Some? ==>
        (r.Some? <==> functionParameters.value in pipelineStates)
      ensures functionParameters.Some? && r.Some? ==> r.value == pipelineStates[functionParameters.value]
    {
      match functionParameters
      case None => pipelineStateNoOptions
      case Some(k) => if k in pipelineStates then Some(pipelineStates[k]) else None
    }

    /** `requiresBuilding(newFunctionParameters:)`: a build is needed exactly
        when no function has been built yet or `getPipelineState` would find
        nothing for these parameters. */
    predicate RequiresBuilding(newFunctionParameters: Option<ConstantValues>)
      reads this
      ensures RequiresBuilding(newFunctionParameters) <==>
        metalFunction.None? || GetPipelineState(newFunctionParameters).None?
    {
      if metalFunction.None? then true
      else match newFunctionParameters
        case Some(k) => k !in pipelineStates
        case None => pipelineStateNoOptions.None?
    }

    /** `createPipelineState(functionName:library:device:constantValues:)`.
        Without a library, or when making the function or the pipeline
        state fails, nothing changes. A build with constants caches the
        state under them and touches nothing else; a constant-free build
        stores the function and the constant-free state. */
    method CreatePipelineState(functionName: string, library: Option<Library>, constantValues: Option<ConstantValues>,
                               makeFunction: FunctionMaker, makePipelineState: PipelineMaker)
      modifies this
      ensures library.None? ==> Unchanged(old(metalFunction), old(pipelineStateNoOptions), old(pipelineStates))
      ensures library.Some? ==>
        var made := makeFunction(library.value, functionName, constantValues);
        if made.None? || makePipelineState(made.value).None? then
          Unchanged(old(metalFunction), old(pipelineStateNoOptions), old(pipelineStates))
        else if constantValues.Some? then
          && metalFunction == old(metalFunction) && pipelineStateNoOptions == old(pipelineStateNoOptions)
          && pipelineStates == old(pipelineStates)[constantValues.value := makePipelineState(made.value).value]
        else
          && metalFunction == made && pipelineStateNoOptions == makePipelineState(made.value)
          && pipelineStates == old(pipelineStates)
    {
      if library.None? {
        return;
      }
      if constantValues.Some? {
        var compiledFunction := makeFunction(library.value, functionName, constantValues);
        if compiledFunction.None? {
          return;
        }
        var pipelineState := makePipelineState(compiledFunction.value);
        if pipelineState.None? {
          return;
        }
        pipelineStates := pipelineStates[constantValues.value := pipelineState.value];
      } else {
        var compiledFunction := makeFunction(library.value, functionName, None);
        if compiledFunction.None? {
          return;
        }
        var pipelineState := makePipelineState(compiledFunction.value);
        if pipelineState.None? {
          return;
        }
        metalFunction := compiledFunction;
        pipelineStateNoOptions := pipelineState;
      }
    }

    predicate Unchanged(function0: Option<MetalFunction>, noOptions0: Option<PipelineState>,
                        states0: map<ConstantValues, PipelineState>)
      reads this
    {
      metalFunction == function0 && pipelineStateNoOptions == noOptions0 && pipelineStates == states0
    }
  }

  /** Builds with constants never set the function, so on a new bundle
      `requiresBuilding` keeps asking for a build with constants, however
      often one succeeds, until a constant-free build succeeds. */
  method ConstantBuildsKeepRequiringBuild(functionName: string, library: Library, k: ConstantValues,
                                          makeFunction: FunctionMaker, makePipelineState: PipelineMaker)
      returns (bundle: PipelineStateBundle)
    ensures bundle.RequiresBuilding(Some(k))
    ensures var made := makeFunction(library, functionName, Some(k));
      made.Some? && makePipelineState(made.value).Some? ==> bundle.GetPipelineState(Some(k)).Some?
  {
    bundle := new PipelineStateBundle();
    bundle.CreatePipelineState(functionName, Some(library), Some(k), makeFunction, makePipelineState);
    bundle.CreatePipelineState(functionName, Some(library), Some(k), makeFunction, makePipelineState);
  }

  /** A successful constant-free build satisfies `requiresBuilding(nil)`. */
  method ConstantFreeBuildSuffices(bundle: PipelineStateBundle, functionName: string, library: Library,
                                   makeFunction: FunctionMaker, makePipelineState: PipelineMaker)
    requires makeFunction(library, functionName, None).Some?
    requires makePipelineState(makeFunction(library, functionName, None).value).Some?
    modifies bundle
    ensures !bundle.RequiresBuilding(None)
    ensures bundle.GetPipelineState(None) == makePipelineState(makeFunction(library, functionName, None).value)
  {
    bundle.CreatePipelineState(functionName, Some(library), None, makeFunction, makePipelineState);
  }
}
