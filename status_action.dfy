/** Status actions of the status view: what is being done (importing a file,
    generating ball-and-stick geometry, benchmarking a protein), its optional
    description, progress and error, and the copy the view displays. `Error`
    values are carried as their messages and `Progress` objects as their
    completed fraction; an action's `UUID()` is given by the caller. */
module StatusActions {
  import opened Wrappers

  /** `StatusActionType`. */
  datatype StatusActionType = ImportFile | GeometryGeneration | Benchmark(proteinName: string)

  /** `title`. */
  function Title(actionType: StatusActionType): (title: string)
    ensures actionType.Benchmark? ==> title == "Benchmark " + actionType.proteinName
  {
    match actionType
    case ImportFile => "Import file"
    case GeometryGeneration => "Ball and stick"
    case Benchmark(name) => "Benchmark " + name
  }

  /** What tells titles apart: the first letter marks an import, the second
      ball and stick, and a benchmark's name follows its ten-letter prefix. */
  lemma {:induction false} TitleMarks(actionType: StatusActionType)
    ensures |Title(actionType)| >= 10
    ensures Title(actionType)[0] == 'I' <==> actionType.ImportFile?
    ensures Title(actionType)[1] == 'a' <==> actionType.GeometryGeneration?
    ensures actionType.Benchmark? ==> Title(actionType)[10..] == actionType.proteinName
  {
    match actionType
    case ImportFile =>
    case GeometryGeneration =>
    case Benchmark(name) =>
      assert Title(actionType)[10..] == name;
  }

  /** Different actions have different titles: the title names the action. */
  lemma {:induction false} TitleInjective(a: StatusActionType, b: StatusActionType)
    requires Title(a) == Title(b)
    ensures a == b
  {
    TitleMarks(a);
    TitleMarks(b);
  }

  /** `blocksRendering`: only importing a file blocks rendering. */
  function BlocksRendering(actionType: StatusActionType): (blocks: bool)
    ensures blocks <==> actionType == ImportFile
  {
    match actionType
    case ImportFile => true
    case GeometryGeneration => false
    case Benchmark(_) => false
  }

  datatype Progress = Progress(fractionCompleted: real)

  /** `StatusAction`: `type` is a reserved word here, so the field is
      `actionType`. */
  datatype StatusAction = StatusAction(
    id: nat,
    actionType: StatusActionType,
    description: Option<string>,
    progress: Option<Progress>,
    error: Option<string>)

  /** `StatusAction(type:progress:)`, the initialiser with the description and
      the error left at their defaults. */
  function NewStatusAction(id: nat, actionType: StatusActionType, progress: Option<Progress>): (action: StatusAction)
    ensures action.id == id && action.actionType == actionType && action.progress == progress
    ensures action.description.None? && action.error.None?
  {
    StatusAction(id, actionType, None, progress, None)
  }

  /** `StatusActionUI`. */
  datatype StatusActionUI = StatusActionUI(
    id: nat,
    actionType: StatusActionType,
    description: Option<string>,
    progress: Option<real>,
    error: Option<string>)

  /** `StatusActionUI.init(statusAction:)`: the identity, type, description
      and error are copied and the progress becomes its completed fraction,
      absent when there is no progress. */
  function ToUI(action: StatusAction): (ui: StatusActionUI)
    ensures ui.id == action.id && ui.actionType == action.actionType
    ensures ui.description == action.description && ui.error == action.error
    ensures ui.progress.None? <==> action.progress.None?
    ensures action.progress.Some? ==> ui.progress.value == action.progress.value.fractionCompleted
  {
    var progress := match action.progress
      case None => None
      case Some(p) => Some(p.fractionCompleted);
    StatusActionUI(action.id, action.actionType, action.description, progress, action.error)
  }
}
