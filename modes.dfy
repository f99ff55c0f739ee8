/** The run mode chosen from the `--review` and `--codex-only` flags, its name as
    written to the progress log, and the suffix shown on the console. */
module Modes {
  import opened Strings

  datatype Mode = Full | Review | CodexOnly

  /** The mode string the command uses. */
  function Name(m: Mode): string {
    match m
    case Full => "full"
    case Review => "review"
    case CodexOnly => "codex-only"
  }

  lemma NameInjective(a: Mode, b: Mode)
    requires Name(a) == Name(b)
    ensures a == b
  {
  }

  /** Mode selection: `--codex-only` wins over `--review`; neither flag means a full run. */
  function SelectMode(review: bool, codexOnly: bool): (m: Mode)
    ensures m == CodexOnly <==> codexOnly
    ensures m == Review <==> review && !codexOnly
    ensures m == Full <==> !review && !codexOnly
  {
    if codexOnly then CodexOnly else if review then Review else Full
  }

  /** The mode string `runLoop` derives from the flags. */
  lemma NameOfSelectMode(review: bool, codexOnly: bool)
    ensures Name(SelectMode(review, codexOnly)) ==
      if codexOnly then "codex-only" else if review then "review" else "full"
  {
  }

  /** The console suffix ` (<mode> mode)`, empty for a full run. */
  function ModeSuffix(mode: string): (r: string)
    ensures r == [] <==> mode == "full"
    ensures r != [] ==> |r| == |mode| + 8 && HasPrefix(r, " (") && HasSuffix(r, " mode)") && r[2..|r| - 6] == mode
  {
    if mode != "full" then " (" + mode + " mode)" else ""
  }

  /** The suffix is shown exactly when at least one of the two flags is set. */
  lemma SuffixShownIffFlagSet(review: bool, codexOnly: bool)
    ensures ModeSuffix(Name(SelectMode(review, codexOnly))) != [] <==> review || codexOnly
  {
  }
}
