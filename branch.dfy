/** `createBranchIfNeeded`: on `main` or `master`, a branch named after the plan is
    checked out; on any other branch nothing changes. */
module Branch {
  import opened Wrappers
  import opened Strings
  import opened FilePath
  import opened PlanFile

  /** A character of the class `[\d-]`: an ASCII digit or a hyphen. */
  predicate IsDatePrefixChar(c: char) {
    '0' <= c <= '9' || c == '-'
  }

  /** Length of the longest leading run of `[\d-]` characters. */
  function DatePrefixLen(s: string): (k: nat)
    ensures k <= |s|
    ensures forall i :: 0 <= i < k ==> IsDatePrefixChar(s[i])
    ensures k < |s| ==> !IsDatePrefixChar(s[k])
    decreases |s|
  {
    if s == [] || !IsDatePrefixChar(s[0]) then 0 else 1 + DatePrefixLen(s[1..])
  }

  /** Replacing the anchored pattern `^[\d-]+` with nothing: the greedy match is the
      longest leading run, and there is at most one match. */
  function StripDatePrefix(name: string): (r: string)
    ensures HasSuffix(name, r)
  {
    name[DatePrefixLen(name)..]
  }

  /** The `TrimLeft(_, "-")` the source applies after the replacement never removes
      anything: the run it would remove was already taken by the pattern. */
  lemma TrimLeftAfterStripUnchanged(name: string)
    ensures TrimLeft(StripDatePrefix(name), '-') == StripDatePrefix(name)
  {
  }

  /** The branch name derived from the plan file: its stem without the leading date,
      or the whole stem when nothing would be left. The result is a suffix of the stem,
      non-empty for a non-empty stem; when it differs from the stem, what was removed
      is a run of digits and hyphens and the result starts after the whole run; when it
      equals the stem, either there was nothing to remove or the stem is all digits and
      hyphens. */
  function BranchName(planFile: string): (r: string)
    ensures var name := PlanStem(planFile);
      && HasSuffix(name, r)
      && (name != [] ==> r != [])
      && (r != name ==> r != [] && !IsDatePrefixChar(r[0])
                        && forall i :: 0 <= i < |name| - |r| ==> IsDatePrefixChar(name[i]))
      && (r == name ==> name == [] || !IsDatePrefixChar(name[0])
                        || forall i :: 0 <= i < |name| ==> IsDatePrefixChar(name[i]))
  {
    var name := PlanStem(planFile);
    var branchName := TrimLeft(StripDatePrefix(name), '-');
    TrimLeftAfterStripUnchanged(name);
    if branchName == [] then name else branchName
  }

  /** What the command does about the branch. */
  datatype BranchAction = KeepCurrent | CreateBranch(name: string)

  predicate IsTrunk(branch: string) {
    branch == "main" || branch == "master"
  }

  /** `createBranchIfNeeded`. `current` is the outcome of `git branch --show-current`
      (its output or its error text) and `checkoutError` the error text of
      `git checkout -b`, if it failed. A branch is created only when the trimmed current
      branch is `main` or `master`, and then it is the one named after the plan. */
  function CreateBranchIfNeeded(current: Result<string, string>, checkoutError: Option<string>, planFile: string): (r: Result<BranchAction, string>)
    ensures current.Err? ==> r == Err("failed to get current branch: " + current.error)
    ensures current.Ok? && !IsTrunk(TrimSpace(current.value)) ==> r == Ok(KeepCurrent)
    ensures r.Ok? && r.value.CreateBranch? ==>
      current.Ok? && IsTrunk(TrimSpace(current.value)) && checkoutError.None? && r.value.name == BranchName(planFile)
    ensures current.Ok? && IsTrunk(TrimSpace(current.value)) && checkoutError.Some? ==>
      r == Err("failed to create branch " + BranchName(planFile) + ": " + checkoutError.value)
    ensures current.Ok? && IsTrunk(TrimSpace(current.value)) && checkoutError.None? ==>
      r == Ok(CreateBranch(BranchName(planFile)))
  {
    match current
    case Err(e) => Err("failed to get current branch: " + e)
    case Ok(out) =>
      if !IsTrunk(TrimSpace(out)) then Ok(KeepCurrent)
      else
        var branchName := BranchName(planFile);
        match checkoutError
        case Some(e) => Err("failed to create branch " + branchName + ": " + e)
        case None => Ok(CreateBranch(branchName))
  }

  /** The output of `git branch --show-current` is read with its surrounding white
      space ignored: `main` or `master` with a line break creates the plan's branch. */
  lemma TrunkOutputCreatesBranch(pre: string, branch: string, post: string, planFile: string)
    requires AllSpace(pre) && AllSpace(post) && IsTrunk(branch)
    ensures CreateBranchIfNeeded(Ok(pre + branch + post), None, planFile) == Ok(CreateBranch(BranchName(planFile)))
  {
    TrimSpaceOfPadded(pre, branch, post);
  }

  /** Any other branch name, however padded, leaves the current branch alone. */
  lemma FeatureOutputKeepsBranch(pre: string, branch: string, post: string, checkoutError: Option<string>, planFile: string)
    requires AllSpace(pre) && AllSpace(post) && !IsTrunk(branch)
    requires branch == [] || (!IsSpace(branch[0]) && !IsSpace(branch[|branch| - 1]))
    ensures CreateBranchIfNeeded(Ok(pre + branch + post), checkoutError, planFile) == Ok(KeepCurrent)
  {
    TrimSpaceOfPadded(pre, branch, post);
  }

  /** A dated plan `<dir>/<date>-<words>.md` gives the branch `<words>`: for example
      `2024-01-15-feature.md` gives `feature`, `2024-01-15-12-30-my-feature.md` gives
      `my-feature`. */
  lemma DatedPlanBranch(dir: string, date: string, words: string)
    requires dir == [] || dir[|dir| - 1] == Separator
    requires forall i :: 0 <= i < |date| ==> IsDatePrefixChar(date[i])
    requires words != [] && !IsDatePrefixChar(words[0]) && Separator !in words
    ensures BranchName(dir + date + words + ".md") == words
  {
    var name := date + words;
    var path := dir + date + words + ".md";
    assert path == dir + name + ".md";
    PlanStemOfPath(dir, name);
    DatePrefixOfDated(date, words);
    BranchNameOfStripped(path, name, words);
  }

  lemma BranchNameOfStripped(planFile: string, name: string, rest: string)
    requires PlanStem(planFile) == name && StripDatePrefix(name) == rest
    requires rest != [] && rest[0] != '-'
    ensures BranchName(planFile) == rest
  {
  }

  /** A plan whose stem is all digits and hyphens keeps its whole stem as the branch. */
  lemma AllDatePlanBranch(dir: string, date: string)
    requires dir == [] || dir[|dir| - 1] == Separator
    requires forall i :: 0 <= i < |date| ==> IsDatePrefixChar(date[i])
    ensures BranchName(dir + date + ".md") == date
  {
    PlanStemOfPath(dir, date);
    DatePrefixOfDated(date, []);
    assert date + [] == date;
  }

  lemma {:induction false} DatePrefixOfDated(date: string, words: string)
    requires forall i :: 0 <= i < |date| ==> IsDatePrefixChar(date[i])
    requires words == [] || !IsDatePrefixChar(words[0])
    ensures DatePrefixLen(date + words) == |date|
    decreases |date|
  {
    if date != [] {
      assert (date + words)[1..] == date[1..] + words;
      DatePrefixOfDated(date[1..], words);
    } else {
      assert date + words == words;
    }
  }
}
