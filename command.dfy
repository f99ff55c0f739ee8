/** `run` and the decisions of `runLoop` that precede the (unimplemented) execution
    loop: the plan, the branch, the mode, the progress file and its text. */
module Command {
  import opened Wrappers
  import opened Strings
  import opened FilePath
  import opened Modes
  import opened PlanFile
  import opened Branch
  import opened Progress

  /** The command-line options that `run` consults (`opts`). */
  datatype Options = Options(maxIterations: int, review: bool, codexOnly: bool, planFile: string)

  /** What the run learns from the file system and from `fzf` and `git`: whether the
      named plan exists, what the picker returned, the output or error of
      `git branch --show-current`, and the error of `git checkout -b`, if any. */
  datatype Environment = Environment(
    planExists: bool,
    picked: Result<string, string>,
    currentBranch: Result<string, string>,
    checkoutError: Option<string>)

  /** Why `run` stops before the loop. */
  datatype RunError = PlanFailed(planError: PlanError) | BranchFailed(message: string)

  function ErrorText(e: RunError): string {
    match e
    case PlanFailed(p) => Message(p)
    case BranchFailed(m) => m
  }

  /** What the loop starts with. */
  datatype Launch = Launch(plan: string, branchAction: BranchAction, mode: Mode, progressPath: string)

  /** `run` up to the loop: the plan is resolved, a branch is created only for a
      non-empty plan, then the mode and the progress file name are chosen. */
  function Run(o: Options, env: Environment): (r: Result<Launch, RunError>)
    ensures r == Err(PlanFailed(PlanRequired)) <==> o.planFile == [] && !o.review && !o.codexOnly && env.picked == Ok([])
    ensures r.Ok? && o.planFile != [] ==> r.value.plan == o.planFile
    ensures r.Ok? && r.value.plan == [] ==> r.value.branchAction == KeepCurrent && r.value.mode != Full
    ensures r.Ok? ==> (r.value.mode == CodexOnly <==> o.codexOnly)
    ensures r.Ok? && r.value.branchAction.CreateBranch? ==>
      && env.currentBranch.Ok? && IsTrunk(TrimSpace(env.currentBranch.value))
      && r.value.branchAction.name == BranchName(r.value.plan)
    ensures r.Ok? ==> HasPrefix(r.value.progressPath, "progress") && HasSuffix(r.value.progressPath, ".txt")
    ensures r.Ok? ==> r.value.progressPath == ProgressFilename(r.value.plan, Name(r.value.mode))
    ensures r.Ok? && r.value.plan != [] ==>
      Ok(r.value.branchAction) == CreateBranchIfNeeded(env.currentBranch, env.checkoutError, r.value.plan)
    ensures var p := ResolvePlan(o.planFile, o.review, o.codexOnly, env.planExists, env.picked);
      && (p.Err? ==> r == Err(PlanFailed(p.error)))
      && (p.Ok? && p.value != [] && CreateBranchIfNeeded(env.currentBranch, env.checkoutError, p.value).Err? ==>
            r == Err(BranchFailed(CreateBranchIfNeeded(env.currentBranch, env.checkoutError, p.value).error)))
      && (r.Ok? <==> p.Ok? && (p.value == [] || CreateBranchIfNeeded(env.currentBranch, env.checkoutError, p.value).Ok?))
      && (r.Ok? ==> r.value.plan == p.value)
  {
    match ResolvePlan(o.planFile, o.review, o.codexOnly, env.planExists, env.picked)
    case Err(e) => Err(PlanFailed(e))
    case Ok(plan) =>
      var branch := if plan != [] then CreateBranchIfNeeded(env.currentBranch, env.checkoutError, plan) else Ok(KeepCurrent);
      match branch
      case Err(m) => Err(BranchFailed(m))
      case Ok(action) =>
        var mode := SelectMode(o.review, o.codexOnly);
        Ok(Launch(plan, action, mode, ProgressFilename(plan, Name(mode))))
  }

  /** Every progress file a run gets to create is covered by the `progress-*.txt` line
      that `ensureGitignore` adds, as long as the plan path names more than the root. */
  lemma RunProgressFileIgnored(o: Options, env: Environment)
    requires Run(o, env).Ok?
    requires var p := Run(o, env).value.plan; p == [] || exists i :: 0 <= i < |p| && p[i] != Separator
    ensures IgnoredProgressFile(Run(o, env).value.progressPath)
  {
    var l := Run(o, env).value;
    ProgressFilenameIgnored(l.plan, l.mode);
  }

  /** A review run without a plan goes ahead without a plan: no picker, no branch, the
      `review` mode and the file `progress-review.txt`. */
  lemma ReviewWithoutPlan(maxIterations: int, env: Environment)
    ensures Run(Options(maxIterations, true, false, []), env) == Ok(Launch([], KeepCurrent, Review, "progress-review.txt"))
  {
    assert ResolvePlan([], true, false, env.planExists, env.picked) == Ok([]);
    assert SelectMode(true, false) == Review;
    ReviewFilename();
  }

  lemma ReviewFilename()
    ensures ProgressFilename([], Name(Review)) == "progress-review.txt"
  {
    FilenameWithoutPlan("review");
    assert "progress" + (ModeTag("review") + ".txt") == "progress-review.txt";
  }

  /** The texts `run` reports when it stops before the loop: a missing named plan, a
      task run without a plan, a picker failure, and the two git failures of
      `createBranchIfNeeded` on a named plan. */
  lemma RunErrorTexts(o: Options, env: Environment)
    ensures o.planFile != [] && !env.planExists ==>
      Run(o, env).Err? && ErrorText(Run(o, env).error) == "plan file not found: " + o.planFile
    ensures o.planFile == [] && !o.review && !o.codexOnly && env.picked == Ok([]) ==>
      Run(o, env).Err? && ErrorText(Run(o, env).error) == "plan file required for task execution"
    ensures o.planFile == [] && !o.review && !o.codexOnly && env.picked.Err? ==>
      Run(o, env).Err? && ErrorText(Run(o, env).error) == env.picked.error
    ensures o.planFile != [] && env.planExists && env.currentBranch.Err? ==>
      Run(o, env).Err? && ErrorText(Run(o, env).error) == "failed to get current branch: " + env.currentBranch.error
    ensures o.planFile != [] && env.planExists && env.currentBranch.Ok? && IsTrunk(TrimSpace(env.currentBranch.value))
            && env.checkoutError.Some? ==>
      Run(o, env).Err? && ErrorText(Run(o, env).error)
        == "failed to create branch " + BranchName(o.planFile) + ": " + env.checkoutError.value
  {
  }

  /** The progress log a run writes when the loop finds nothing to do: the header with the
      run's plan, the trimmed branch output of the second `git branch --show-current`,
      the mode and the start time, then the footer. */
  function RunLog(l: Launch, branchOutput: string, started: string, completed: string, elapsed: int): string {
    Header(l.plan, TrimSpace(branchOutput), Name(l.mode), started) + Footer(completed, elapsed)
  }

  /** A launched run has the selected mode, the plan given on the command line if there
      was one, and no plan only in a review or codex-only run. */
  lemma LaunchFacts(o: Options, env: Environment, l: Launch)
    requires Run(o, env) == Ok(l)
    ensures l.mode == SelectMode(o.review, o.codexOnly)
    ensures o.planFile != [] ==> l.plan == o.planFile
    ensures l.plan == [] ==> o.review || o.codexOnly
  {
  }

  /** The log of a launched run has the eleven lines of the header and the footer; its
      `Plan:` line names the plan or says that there is none, its `Branch:` line the trimmed
      git output, and its `Mode:` line the run's mode. The git output itself may end in a
      line break: only what is left after trimming must be one line. */
  lemma RunLogLines(l: Launch, branchOutput: string, started: string, completed: string, elapsed: int)
    requires SingleLine(l.plan)
    requires SingleLine(TrimSpace(branchOutput)) && SingleLine(started) && SingleLine(completed)
    ensures var lines := Lines(RunLog(l, branchOutput, started, completed, elapsed));
      && |lines| == 11
      && lines[1] == "Plan: " + PlanLabel(l.plan)
      && (l.plan == [] ==> lines[1] == "Plan: (no plan - review only)")
      && lines[2] == "Branch: " + TrimSpace(branchOutput)
      && lines[3] == "Mode: " + Name(l.mode)
  {
    NoPlanLine();
    var branch := TrimSpace(branchOutput);
    LogLines(l.plan, branch, Name(l.mode), started, completed, elapsed);
    var hl := HeaderLines(l.plan, branch, Name(l.mode), started);
    var lines := hl + FooterLines(completed, elapsed) + [""];
    assert lines[1] == hl[1] && lines[2] == hl[2] && lines[3] == hl[3];
  }

  /** `git branch --show-current` prints the branch followed by a line break; the log's
      `Branch:` line carries the branch alone, whatever white space surrounds it. */
  lemma RunLogBranchLine(l: Launch, pre: string, branch: string, post: string, started: string, completed: string, elapsed: int)
    requires SingleLine(l.plan) && SingleLine(branch) && SingleLine(started) && SingleLine(completed)
    requires AllSpace(pre) && AllSpace(post)
    requires branch == [] || (!IsSpace(branch[0]) && !IsSpace(branch[|branch| - 1]))
    ensures var lines := Lines(RunLog(l, pre + branch + post, started, completed, elapsed));
      |lines| == 11 && lines[2] == "Branch: " + branch
  {
    TrimSpaceOfPadded(pre, branch, post);
    RunLogLines(l, pre + branch + post, started, completed, elapsed);
  }

  // Proof scaffolding: the literal no-plan line, proved in a small context.
  lemma NoPlanLine()
    ensures "Plan: " + PlanLabel([]) == "Plan: (no plan - review only)"
  {
  }
}
