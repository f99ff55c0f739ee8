/** Choosing the plan file (`selectPlan`) and the check `run` makes on the choice. */
module PlanFile {
  import opened Wrappers
  import opened Strings
  import opened FilePath

  /** The plan's base name without one trailing `.md`. */
  function PlanStem(planFile: string): (r: string)
    ensures Separator !in r || r == [Separator]
  {
    TrimSuffix(Base(planFile), ".md")
  }

  /** The stem of `<dir>/<name>.md` is `<name>`. */
  lemma PlanStemOfPath(dir: string, name: string)
    requires dir == [] || dir[|dir| - 1] == Separator
    requires Separator !in name
    ensures PlanStem(dir + name + ".md") == name
  {
    assert Separator !in name + ".md";
    assert dir + name + ".md" == dir + (name + ".md");
    BaseOfJoin(dir, name + ".md");
    TrimSuffixOfAppend(name, ".md");
  }

  /** The errors `selectPlan` and `run` report. */
  datatype PlanError =
    | PlanNotFound(path: string)
    | PickerFailed(message: string)
    | PlanRequired

  function Message(e: PlanError): string {
    match e
    case PlanNotFound(path) => "plan file not found: " + path
    case PickerFailed(message) => message
    case PlanRequired => "plan file required for task execution"
  }

  /** `selectPlan`. Whether the named file exists and what the interactive picker
      returns are inputs: `picked` is the outcome of `selectPlanWithFzf`. */
  function SelectPlan(planFile: string, optional: bool, planExists: bool, picked: Result<string, string>): (r: Result<string, PlanError>)
    ensures planFile != [] ==> (r.Ok? <==> planExists)
    ensures planFile != [] && r.Ok? ==> r.value == planFile
    ensures planFile != [] && r.Err? ==> Message(r.error) == "plan file not found: " + planFile
    ensures planFile == [] && optional ==> r == Ok([])
    ensures planFile == [] && !optional ==> (r.Ok? <==> picked.Ok?)
    ensures planFile == [] && !optional && r.Ok? ==> r.value == picked.value
    ensures planFile == [] && !optional && r.Err? ==> Message(r.error) == picked.error
  {
    if planFile != [] then
      if planExists then Ok(planFile) else Err(PlanNotFound(planFile))
    else if optional then Ok([])
    else match picked
      case Ok(p) => Ok(p)
      case Err(m) => Err(PickerFailed(m))
  }

  /** The plan `run` goes on with: `selectPlan` with the plan optional in review and
      codex-only runs, then the refusal of an empty plan for a run that executes tasks. */
  function ResolvePlan(planFile: string, review: bool, codexOnly: bool, planExists: bool, picked: Result<string, string>): (r: Result<string, PlanError>)
    ensures r == Err(PlanRequired) <==> planFile == [] && !review && !codexOnly && picked == Ok([])
    ensures r.Ok? && !review && !codexOnly ==> r.value != []
    ensures r.Ok? && planFile != [] ==> r.value == planFile
    ensures r.Ok? && planFile == [] && (review || codexOnly) ==> r.value == []
    ensures planFile != [] ==> (r == Ok(planFile) <==> planExists)
    ensures planFile != [] && !planExists ==> r == Err(PlanNotFound(planFile))
    ensures planFile == [] && (review || codexOnly) ==> r == Ok([])
    ensures planFile == [] && !review && !codexOnly && picked.Ok? && picked.value != [] ==> r == Ok(picked.value)
    ensures planFile == [] && !review && !codexOnly && picked.Err? ==> r == Err(PickerFailed(picked.error))
  {
    var skipTasks := review || codexOnly;
    match SelectPlan(planFile, skipTasks, planExists, picked)
    case Err(e) => Err(e)
    case Ok(p) => if p == [] && !skipTasks then Err(PlanRequired) else Ok(p)
  }
}
