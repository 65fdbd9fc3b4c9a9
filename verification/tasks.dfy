/** The benchmark harness: `main` accepts a routine name only from a fixed
    allow-list and runs the matching routine once; `play` does nothing;
    `bypass_dna` names its outputs after the base name of each source file. */
module Tasks {
  import opened Results
  import opened PathNames
  import Loading

  /** The benchmark routines `main` can run. */
  datatype Task =
    | BypassDna
    | QuantizationTables
    | Quantization
    | EvaluateYReconstruction
    | Play
    | StudyOutputAnalysis

  /** The allow-list of `main`, in its order. */
  const TaskNames: seq<string> := [
    "bypass_dna", "quantization_tables", "quantization",
    "evaluate_y_reconstruction", "play", "study_output_analysis"]

  /** The Python name of a routine; it is on the allow-list. */
  function TaskName(t: Task): (name: string)
    ensures name in TaskNames
  {
    match t
    case BypassDna => "bypass_dna"
    case QuantizationTables => "quantization_tables"
    case Quantization => "quantization"
    case EvaluateYReconstruction => "evaluate_y_reconstruction"
    case Play => "play"
    case StudyOutputAnalysis => "study_output_analysis"
  }

  /** The `ValueError` of `main`: the rejected name and the accepted ones. */
  datatype DispatchError = Unsupported(task: string, choices: seq<string>)

  /** The allow-list check of `main`: a name is accepted exactly when it is
      on the list, and then it names the routine that is run. */
  function ParseTask(name: string): (r: Result<Task, DispatchError>)
    ensures r.Ok? <==> name in TaskNames
    ensures r.Ok? ==> TaskName(r.value) == name
    ensures r.Err? ==> r.error == Unsupported(name, TaskNames)
  {
    if name == "bypass_dna" then Ok(BypassDna)
    else if name == "quantization_tables" then Ok(QuantizationTables)
    else if name == "quantization" then Ok(Quantization)
    else if name == "evaluate_y_reconstruction" then Ok(EvaluateYReconstruction)
    else if name == "play" then Ok(Play)
    else if name == "study_output_analysis" then Ok(StudyOutputAnalysis)
    else Err(Unsupported(name, TaskNames))
  }

  /** Names and routines are in one-to-one correspondence: parsing a
      routine's name gives that routine back, and the allow-list holds six
      different names. */
  lemma ParseTaskName()
    ensures forall t :: ParseTask(TaskName(t)) == Ok(t)
    ensures |TaskNames| == 6
    ensures forall i, j :: 0 <= i < j < |TaskNames| ==> TaskNames[i] != TaskNames[j]
  {
    forall t
      ensures ParseTask(TaskName(t)) == Ok(t)
    {
      match t
      case BypassDna =>
      case QuantizationTables =>
      case Quantization =>
      case EvaluateYReconstruction =>
      case Play =>
      case StudyOutputAnalysis =>
    }
  }

  /** What a run of `main` does, in order: the routine it invoked, then
      whatever that routine did. */
  datatype Event<A> = Invoked(task: Task) | Did(action: A)

  /** The actions of routine `t`; `routines` stands for the routines whose
      bodies are not part of this model, and `play` has none. */
  function Run<A>(t: Task, routines: Task -> seq<A>): seq<A>
  {
    if t == Play then [] else routines(t)
  }

  /** `main`: reject a name off the allow-list before invoking anything;
      otherwise invoke the named routine exactly once and record its actions.
      Running `play` records its invocation and nothing else. */
  function Main<A>(task: string, routines: Task -> seq<A>): (r: Result<seq<Event<A>>, DispatchError>)
    ensures r.Err? <==> task !in TaskNames
    ensures r.Err? ==> r.error == Unsupported(task, TaskNames)
    ensures r.Ok? ==> |r.value| >= 1 && r.value[0].Invoked? && TaskName(r.value[0].task) == task
    ensures r.Ok? ==> forall j :: 1 <= j < |r.value| ==> r.value[j].Did?
    ensures r.Ok? && task != "play" ==>
      |r.value| == 1 + |routines(r.value[0].task)|
      && forall j :: 0 <= j < |routines(r.value[0].task)| ==> r.value[j + 1] == Did(routines(r.value[0].task)[j])
    ensures task == "play" ==> r == Ok([Invoked(Play)])
  {
    match ParseTask(task)
    case Err(e) => Err(e)
    case Ok(t) =>
      var actions := Run(t, routines);
      var did := seq(|actions|, j requires 0 <= j < |actions| => Did(actions[j]));
      assert t == Play ==> [Invoked(t)] + did == [Invoked(Play)];
      Ok([Invoked(t)] + did)
  }

  /** The file `bypass_dna` writes for a source record: `x_hat/{name}.ply`
      under its output directory, where `name` is the record's base name. It
      keeps the source's base name, lies in that directory, and its extension
      selects the point-cloud decoder. */
  function BypassOutputPath(source: string): (out: string)
    ensures BaseName(out) == BaseName(source)
    ensures Parent(out) == "./bypass_dna/x_hat"
    ensures Loading.ChooseFormat(ExtensionOf(out)) == Ok(Loading.Ply)
  {
    var name := BaseName(source);
    BaseNameOfJoinPath("./bypass_dna/x_hat", name, "ply");
    JoinPath("./bypass_dna/x_hat", name, "ply")
  }
}
