/** The progress log of a run: the name of its file, the header written when the run
    starts and the footer written when it ends. */
module Progress {
  import opened Wrappers
  import opened Strings
  import opened FilePath
  import opened Decimal
  import opened Elapsed
  import opened Modes
  import opened PlanFile

  /** `getProgressFilename`: `progress-<stem>` for a plan and `progress` without one,
      then `-codex` for `codex-only`, `-review` for `review` and nothing for any other
      mode, then `.txt`. (The source spells out the six results in two `switch`
      statements; this is the same table.) */
  function ProgressFilename(planFile: string, mode: string): (r: string)
    ensures HasPrefix(r, "progress") && HasSuffix(r, ".txt")
    ensures planFile != [] ==> HasPrefix(r, "progress-" + PlanStem(planFile))
  {
    var head := "progress" + PlanPart(planFile);
    ConcatPrefixSuffix(head, ModeTag(mode), ".txt");
    HeadFacts(planFile);
    PrefixOfPrefix(head + ModeTag(mode) + ".txt", head, "progress");
    head + ModeTag(mode) + ".txt"
  }

  lemma HeadFacts(planFile: string)
    ensures HasPrefix("progress" + PlanPart(planFile), "progress")
    ensures planFile != [] ==> "progress" + PlanPart(planFile) == "progress-" + PlanStem(planFile)
  {
    ProgressThen(PlanPart(planFile));
    if planFile != [] {
      HyphenThen(PlanStem(planFile));
    }
  }

  function PlanPart(planFile: string): string {
    if planFile != [] then "-" + PlanStem(planFile) else ""
  }

  function ModeTag(mode: string): string {
    if mode == "codex-only" then "-codex" else if mode == "review" then "-review" else ""
  }

  /** The six names, as the two `switch` statements of the source list them. */
  lemma ProgressFilenameCases(planFile: string, mode: string)
    ensures var stem := PlanStem(planFile);
      ProgressFilename(planFile, mode) ==
        if planFile != [] then
          if mode == "codex-only" then "progress-" + stem + "-codex.txt"
          else if mode == "review" then "progress-" + stem + "-review.txt"
          else "progress-" + stem + ".txt"
        else
          if mode == "codex-only" then "progress-codex.txt"
          else if mode == "review" then "progress-review.txt"
          else "progress.txt"
  {
    ModeTagEnding(mode);
    if planFile != [] {
      FilenameWithPlan(planFile, mode);
    } else {
      FilenameWithoutPlan(mode);
    }
  }

  lemma ModeTagEnding(mode: string)
    ensures ModeTag(mode) + ".txt" ==
      if mode == "codex-only" then "-codex.txt" else if mode == "review" then "-review.txt" else ".txt"
  {
  }

  lemma FilenameWithPlan(planFile: string, mode: string)
    requires planFile != []
    ensures ProgressFilename(planFile, mode) == "progress-" + PlanStem(planFile) + (ModeTag(mode) + ".txt")
  {
    var stem := PlanStem(planFile);
    assert ProgressFilename(planFile, mode) == "progress" + ("-" + stem) + ModeTag(mode) + ".txt";
    Regroup(stem, ModeTag(mode));
  }

  lemma FilenameWithoutPlan(mode: string)
    ensures ProgressFilename([], mode) == "progress" + (ModeTag(mode) + ".txt")
  {
    assert "progress" + [] + ModeTag(mode) + ".txt" == "progress" + (ModeTag(mode) + ".txt");
  }

  /** Runs of the same plan in different modes write different files. */
  lemma ProgressFilenamesDistinct(planFile: string, a: Mode, b: Mode)
    requires a != b
    ensures ProgressFilename(planFile, Name(a)) != ProgressFilename(planFile, Name(b))
  {
    ModeTagOfName(a);
    ModeTagOfName(b);
    var part := PlanPart(planFile);
    assert |ProgressFilename(planFile, Name(a))| == 12 + |part| + |ModeTag(Name(a))|;
    assert |ProgressFilename(planFile, Name(b))| == 12 + |part| + |ModeTag(Name(b))|;
  }

  /** What the `.gitignore` line `progress-*.txt` matches in the working directory:
      `progress-`, then any text without a separator, then `.txt`. */
  predicate IgnoredProgressFile(name: string) {
    |name| >= 13 && HasPrefix(name, "progress-") && HasSuffix(name, ".txt") && Separator !in name
  }

  /** Every progress file with a plan, or without a plan in review or codex-only mode,
      is covered by the `.gitignore` line; the plain `progress.txt` of a full run
      without a plan is not. A plan path must name something other than the root. */
  lemma ProgressFilenameIgnored(planFile: string, mode: Mode)
    requires planFile != [] || mode != Full
    requires planFile == [] || exists i :: 0 <= i < |planFile| && planFile[i] != Separator
    ensures IgnoredProgressFile(ProgressFilename(planFile, Name(mode)))
  {
    var middle, tag := PlanPart(planFile), ModeTag(Name(mode));
    assert ProgressFilename(planFile, Name(mode)) == "progress" + middle + tag + ".txt";
    if planFile != [] {
      var i :| 0 <= i < |planFile| && planFile[i] != Separator;
      PlanPartHasNoSeparator(planFile, i);
    }
    TagStartsWithHyphen(planFile, mode);
    PatternOfParts(middle, tag);
  }

  lemma PlanPartHasNoSeparator(planFile: string, i: nat)
    requires i < |planFile| && planFile[i] != Separator
    ensures Separator !in PlanPart(planFile)
  {
    BaseHasNoSeparator(planFile, i);
  }

  lemma TagStartsWithHyphen(planFile: string, mode: Mode)
    requires planFile != [] || mode != Full
    ensures Separator !in ModeTag(Name(mode))
    ensures |PlanPart(planFile)| + |ModeTag(Name(mode))| >= 1
    ensures (PlanPart(planFile) + ModeTag(Name(mode)))[0] == '-'
  {
    var part, tag := PlanPart(planFile), ModeTag(Name(mode));
    ModeTagOfName(mode);
    if planFile != [] {
      assert part == "-" + PlanStem(planFile);
      assert (part + tag)[0] == part[0];
    } else {
      assert part + tag == tag;
    }
  }

  lemma ModeTagOfName(mode: Mode)
    ensures ModeTag(Name(mode)) == match mode
      case Full => ""
      case Review => "-review"
      case CodexOnly => "-codex"
  {
    match mode
    case Full =>
      assert Name(mode) != "codex-only" && Name(mode) != "review";
    case Review =>
      assert Name(mode) != "codex-only";
    case CodexOnly =>
  }

  lemma PatternOfParts(middle: string, tag: string)
    requires Separator !in middle && Separator !in tag
    requires |middle| + |tag| >= 1 && (middle + tag)[0] == '-'
    ensures IgnoredProgressFile("progress" + middle + tag + ".txt")
  {
    var r := "progress" + middle + tag + ".txt";
    ConcatPrefixSuffix("progress" + middle, tag, ".txt");
    assert r[..9] == "progress" + [(middle + tag)[0]];
  }

  lemma PlainProgressFileNotIgnored()
    ensures !IgnoredProgressFile(ProgressFilename([], Name(Full)))
  {
  }

  /** The horizontal rule of the log: 60 hyphens. */
  function Rule(): (r: string)
    ensures |r| == 60 && forall i :: 0 <= i < 60 ==> r[i] == '-'
  {
    Repeat('-', 60)
  }

  /** What the log and the banner print for the plan. */
  function PlanLabel(planFile: string): (r: string)
    ensures r != []
    ensures planFile != [] ==> r == planFile
    ensures planFile == [] ==> r == "(no plan - review only)"
  {
    if planFile == [] then "(no plan - review only)" else planFile
  }

  /** The lines of the header, one per `Fprintf` of the source; the last `Fprintf`
      writes the rule and then an empty line. */
  function HeaderLines(planFile: string, branch: string, mode: string, started: string): seq<string> {
    [ "# Ralph Progress Log",
      "Plan: " + PlanLabel(planFile),
      "Branch: " + branch,
      "Mode: " + mode,
      "Started: " + started,
      Rule(),
      "" ]
  }

  /** The header written when the progress file is created; `branch` is the trimmed
      output of `git branch --show-current` and `started` the formatted start time. */
  function Header(planFile: string, branch: string, mode: string, started: string): string {
    Unlines(HeaderLines(planFile, branch, mode, started))
  }

  /** The lines of the footer: an empty line, the rule, and the completion line with the
      elapsed time. */
  function FooterLines(completed: string, elapsed: int): seq<string> {
    [ "", Rule(), "Completed: " + completed + " (" + FormatElapsed(elapsed) + ")" ]
  }

  /** The footer written when the run ends; `elapsed` is the run's duration in
      nanoseconds and `completed` the formatted end time. */
  function Footer(completed: string, elapsed: int): string {
    Unlines(FooterLines(completed, elapsed))
  }

  predicate SingleLine(s: string) {
    '\n' !in s
  }

  lemma HeaderLinesSingle(planFile: string, branch: string, mode: string, started: string)
    requires SingleLine(planFile) && SingleLine(branch) && SingleLine(mode) && SingleLine(started)
    ensures var hl := HeaderLines(planFile, branch, mode, started);
      forall k :: 0 <= k < |hl| ==> SingleLine(hl[k])
  {
    var hl := HeaderLines(planFile, branch, mode, started);
    forall k | 0 <= k < |hl| ensures SingleLine(hl[k]) {
      if k == 0 {
        TitleSingle(planFile, branch, mode, started);
      } else if k == 1 {
        PlanLineSingle(planFile, branch, mode, started);
      } else if k == 5 {
        RuleSingle();
      } else if k < 5 {
        FieldLinesSingle(planFile, branch, mode, started);
      }
    }
  }

  lemma PlanLineSingle(planFile: string, branch: string, mode: string, started: string)
    requires SingleLine(planFile)
    ensures SingleLine(HeaderLines(planFile, branch, mode, started)[1])
  {
    JoinSingle("Plan: ", PlanLabel(planFile));
  }

  lemma FieldLinesSingle(planFile: string, branch: string, mode: string, started: string)
    requires SingleLine(branch) && SingleLine(mode) && SingleLine(started)
    ensures var hl := HeaderLines(planFile, branch, mode, started);
      SingleLine(hl[2]) && SingleLine(hl[3]) && SingleLine(hl[4])
  {
    JoinSingle("Branch: ", branch);
    JoinSingle("Mode: ", mode);
    JoinSingle("Started: ", started);
  }

  lemma FooterLinesSingle(completed: string, elapsed: int)
    requires SingleLine(completed)
    ensures var fl := FooterLines(completed, elapsed);
      forall k :: 0 <= k < |fl| ==> SingleLine(fl[k])
  {
    var fl := FooterLines(completed, elapsed);
    forall k | 0 <= k < |fl| ensures SingleLine(fl[k]) {
      if k == 1 {
        RuleSingle();
      } else if k == 2 {
        ElapsedSingle(elapsed);
        JoinSingle("Completed: ", completed);
        JoinSingle("Completed: " + completed, " (");
        JoinSingle("Completed: " + completed + " (", FormatElapsed(elapsed));
        JoinSingle("Completed: " + completed + " (" + FormatElapsed(elapsed), ")");
      }
    }
  }

  lemma ElapsedSingle(elapsed: int)
    ensures SingleLine(FormatElapsed(elapsed))
  {
    FormatElapsedAlphabet(elapsed);
    assert !IsDigit('\n') && '\n' !in "-hms";
  }

  /** Read line by line, the log of a run is the title, the `Plan:`, `Branch:`, `Mode:`
      and `Started:` lines, the rule of 60 hyphens and a blank line; then the footer's
      blank line, a second rule and the `Completed:` line, whose elapsed time reads back
      as the run's whole seconds when the duration is not negative. */
  lemma ProgressLogLines(planFile: string, branch: string, mode: string, started: string, completed: string, elapsed: int)
    requires SingleLine(planFile) && SingleLine(branch) && SingleLine(mode)
    requires SingleLine(started) && SingleLine(completed)
    ensures var lines := Lines(Header(planFile, branch, mode, started) + Footer(completed, elapsed));
      && |lines| == 11
      && lines[0] == "# Ralph Progress Log"
      && lines[1] == "Plan: " + PlanLabel(planFile)
      && lines[2] == "Branch: " + branch
      && lines[3] == "Mode: " + mode
      && lines[4] == "Started: " + started
      && lines[5] == Rule() && lines[6] == ""
      && lines[7] == "" && lines[8] == Rule()
      && lines[9] == "Completed: " + completed + " (" + FormatElapsed(elapsed) + ")"
      && lines[10] == ""
    ensures elapsed >= 0 ==> ParseSeconds(FormatElapsed(elapsed)) == Some(WholeSeconds(elapsed))
  {
    LogLines(planFile, branch, mode, started, completed, elapsed);
    var hl := HeaderLines(planFile, branch, mode, started);
    var fl := FooterLines(completed, elapsed);
    var lines := hl + fl + [""];
    assert lines[7] == fl[0] && lines[8] == fl[1] && lines[9] == fl[2];
  }

  /** The header alone splits back into its seven lines and the empty piece after its
      final newline. */
  lemma HeaderReadsBack(planFile: string, branch: string, mode: string, started: string)
    requires SingleLine(planFile) && SingleLine(branch) && SingleLine(mode) && SingleLine(started)
    ensures Lines(Header(planFile, branch, mode, started)) == HeaderLines(planFile, branch, mode, started) + [""]
  {
    HeaderLinesSingle(planFile, branch, mode, started);
    LinesOfUnlines(HeaderLines(planFile, branch, mode, started));
  }

  /** The footer alone splits back into its three lines and the empty piece after its
      final newline. */
  lemma FooterReadsBack(completed: string, elapsed: int)
    requires SingleLine(completed)
    ensures Lines(Footer(completed, elapsed)) == FooterLines(completed, elapsed) + [""]
  {
    FooterLinesSingle(completed, elapsed);
    LinesOfUnlines(FooterLines(completed, elapsed));
  }

  /** The log splits back into the header's lines, the footer's lines and the empty
      piece after the final newline. */
  lemma LogLines(planFile: string, branch: string, mode: string, started: string, completed: string, elapsed: int)
    requires SingleLine(planFile) && SingleLine(branch) && SingleLine(mode)
    requires SingleLine(started) && SingleLine(completed)
    ensures Lines(Header(planFile, branch, mode, started) + Footer(completed, elapsed))
         == HeaderLines(planFile, branch, mode, started) + FooterLines(completed, elapsed) + [""]
  {
    var hl := HeaderLines(planFile, branch, mode, started);
    var fl := FooterLines(completed, elapsed);
    HeaderLinesSingle(planFile, branch, mode, started);
    FooterLinesSingle(completed, elapsed);
    assert forall k :: 0 <= k < |hl + fl| ==> '\n' !in (hl + fl)[k] by {
      forall k | 0 <= k < |hl + fl| ensures '\n' !in (hl + fl)[k] {
        if k < |hl| { assert (hl + fl)[k] == hl[k]; } else { assert (hl + fl)[k] == fl[k - |hl|]; }
      }
    }
    UnlinesAppend(hl, fl);
    LinesOfUnlines(hl + fl);
  }

  // Proof scaffolding: single concatenation and literal facts, each kept as a lemma of
  // its own so that it is proved in a small context rather than inside the larger
  // proofs above.

  lemma HyphenThen(stem: string)
    ensures "progress" + ("-" + stem) == "progress-" + stem
  {
  }

  lemma ProgressThen(part: string)
    ensures HasPrefix("progress" + part, "progress")
  {
    assert ("progress" + part)[..8] == "progress";
  }

  lemma Regroup(stem: string, tag: string)
    ensures "progress" + ("-" + stem) + tag + ".txt" == "progress-" + stem + (tag + ".txt")
  {
  }

  lemma TitleSingle(planFile: string, branch: string, mode: string, started: string)
    ensures SingleLine(HeaderLines(planFile, branch, mode, started)[0])
  {
  }

  lemma RuleSingle()
    ensures SingleLine(Rule())
  {
  }

  lemma JoinSingle(a: string, b: string)
    requires SingleLine(a) && SingleLine(b)
    ensures SingleLine(a + b)
  {
  }
}
