/** The parts of Go's `strings` package that the command uses, on `seq<char>`. */
module Strings {

  predicate HasPrefix(s: string, prefix: string) {
    |prefix| <= |s| && s[..|prefix|] == prefix
  }

  predicate HasSuffix(s: string, suffix: string) {
    |suffix| <= |s| && s[|s| - |suffix|..] == suffix
  }

  /** `strings.TrimSuffix`: drops one trailing copy of `suffix`, if there is one. */
  function TrimSuffix(s: string, suffix: string): (r: string)
    ensures HasPrefix(s, r)
    ensures HasSuffix(s, suffix) ==> r + suffix == s
    ensures !HasSuffix(s, suffix) ==> r == s
  {
    if HasSuffix(s, suffix) then s[..|s| - |suffix|] else s
  }

  /** Appending a suffix and trimming it again gives back the original. */
  lemma TrimSuffixOfAppend(s: string, suffix: string)
    ensures TrimSuffix(s + suffix, suffix) == s
  {
    assert (s + suffix)[|s|..] == suffix;
  }

  /** `strings.TrimLeft(s, cutset)` for a one-character cutset. */
  function TrimLeft(s: string, cut: char): (r: string)
    ensures HasSuffix(s, r)
    ensures r == [] || r[0] != cut
    ensures forall i :: 0 <= i < |s| - |r| ==> s[i] == cut
    decreases |s|
  {
    if s != [] && s[0] == cut then TrimLeft(s[1..], cut) else s
  }

  /** `unicode.IsSpace`, the predicate behind `strings.TrimSpace`. */
  predicate IsSpace(c: char) {
    || c == '\t' || c == '\n' || c == '\U{000B}' || c == '\U{000C}' || c == '\r' || c == ' '
    || c == '\U{0085}' || c == '\U{00A0}' || c == '\U{1680}'
    || ('\U{2000}' <= c <= '\U{200A}')
    || c == '\U{2028}' || c == '\U{2029}' || c == '\U{202F}' || c == '\U{205F}' || c == '\U{3000}'
  }

  predicate AllSpace(s: string) {
    forall i :: 0 <= i < |s| ==> IsSpace(s[i])
  }

  function TrimLeadingSpace(s: string): (r: string)
    ensures HasSuffix(s, r) && AllSpace(s[..|s| - |r|])
    ensures r == [] || !IsSpace(r[0])
    decreases |s|
  {
    if s != [] && IsSpace(s[0]) then
      TrimLeadingSpace(s[1..])
    else s
  }

  function TrimTrailingSpace(s: string): (r: string)
    ensures HasPrefix(s, r) && AllSpace(s[|r|..])
    ensures r == [] || !IsSpace(r[|r| - 1])
    decreases |s|
  {
    if s != [] && IsSpace(s[|s| - 1]) then
      var r := TrimTrailingSpace(s[..|s| - 1]);
      assert forall i :: |r| <= i < |s| - 1 ==> s[i] == s[..|s| - 1][i];
      r
    else s
  }

  /** `strings.TrimSpace`: the text between the leading and the trailing white space. */
  function TrimSpace(s: string): (r: string)
    ensures r == [] || (!IsSpace(r[0]) && !IsSpace(r[|r| - 1]))
    ensures exists i :: 0 <= i <= |s| - |r| && r == s[i..i + |r|] && AllSpace(s[..i]) && AllSpace(s[i + |r|..])
  {
    var t := TrimLeadingSpace(s);
    var r := TrimTrailingSpace(t);
    TrimmedSlice(s, t, r);
    r
  }

  /** A prefix `r` of a suffix `t` of `s`, with only white space cut on either side,
      is the slice of `s` between that white space. */
  lemma TrimmedSlice(s: string, t: string, r: string)
    requires HasSuffix(s, t) && AllSpace(s[..|s| - |t|])
    requires HasPrefix(t, r) && AllSpace(t[|r|..])
    ensures var i := |s| - |t|;
      r == s[i..i + |r|] && AllSpace(s[..i]) && AllSpace(s[i + |r|..])
  {
    var i := |s| - |t|;
    assert t == s[i..];
    assert s[i + |r|..] == t[|r|..];
  }

  lemma {:induction false} TrimLeadingOfPadded(pre: string, t: string)
    requires AllSpace(pre)
    requires t == [] || !IsSpace(t[0])
    ensures TrimLeadingSpace(pre + t) == t
    decreases |pre|
  {
    if pre != [] {
      assert (pre + t)[1..] == pre[1..] + t;
      TrimLeadingOfPadded(pre[1..], t);
    }
  }

  lemma {:induction false} TrimTrailingOfPadded(t: string, post: string)
    requires AllSpace(post)
    requires t == [] || !IsSpace(t[|t| - 1])
    ensures TrimTrailingSpace(t + post) == t
    decreases |post|
  {
    if post != [] {
      assert (t + post)[..|t + post| - 1] == t + post[..|post| - 1];
      TrimTrailingOfPadded(t, post[..|post| - 1]);
    }
  }

  /** Trimming never brings in a character that was not there. */
  lemma TrimSpaceKeepsOut(c: char, s: string)
    requires c !in s
    ensures c !in TrimSpace(s)
  {
    var t := TrimLeadingSpace(s);
    SuffixKeepsOut(c, s, t);
    PrefixKeepsOut(c, t, TrimTrailingSpace(t));
  }

  lemma SuffixKeepsOut(c: char, s: string, r: string)
    requires HasSuffix(s, r) && c !in s
    ensures c !in r
  {
    forall k | 0 <= k < |r| ensures r[k] != c {
      assert r[k] == s[|s| - |r| + k];
    }
  }

  lemma PrefixKeepsOut(c: char, s: string, r: string)
    requires HasPrefix(s, r) && c !in s
    ensures c !in r
  {
    forall k | 0 <= k < |r| ensures r[k] != c {
      assert r[k] == s[k];
    }
  }

  /** White space around a word with no white space at its ends is exactly what
      `TrimSpace` removes. */
  lemma TrimSpaceOfPadded(pre: string, w: string, post: string)
    requires AllSpace(pre) && AllSpace(post)
    requires w == [] || (!IsSpace(w[0]) && !IsSpace(w[|w| - 1]))
    ensures TrimSpace(pre + w + post) == w
  {
    if w == [] {
      assert pre + w + post == (pre + post) + [];
      TrimLeadingOfPadded(pre + post, []);
    } else {
      assert pre + w + post == pre + (w + post);
      TrimLeadingOfPadded(pre, w + post);
      TrimTrailingOfPadded(w, post);
    }
  }

  /** `strings.Repeat` of a one-character string. */
  function Repeat(c: char, n: nat): (r: string)
    ensures |r| == n && forall i :: 0 <= i < n ==> r[i] == c
  {
    seq(n, _ => c)
  }

  /** Lines of a text: the pieces between newline characters (`strings.Split(s, "\n")`). */
  function Lines(s: string): (r: seq<string>)
    ensures |r| >= 1
    ensures forall k :: 0 <= k < |r| ==> '\n' !in r[k]
    decreases |s|
  {
    if s == [] then [""]
    else
      var rest := Lines(s[1..]);
      if s[0] == '\n' then [""] + rest
      else [[s[0]] + rest[0]] + rest[1..]
  }

  lemma {:induction false} LinesOfBreak(w: string, t: string)
    requires '\n' !in w
    ensures Lines(w + "\n" + t) == [w] + Lines(t)
    decreases |w|
  {
    var s := w + "\n" + t;
    if w == [] {
      assert s[1..] == t;
    } else {
      assert s[1..] == w[1..] + "\n" + t;
      LinesOfBreak(w[1..], t);
      assert [w[0]] + w[1..] == w;
    }
  }

  /** Text made of lines each ended by a newline, as successive `Fprintf(f, "%s\n", line)`
      calls write it. */
  function Unlines(lines: seq<string>): string {
    if lines == [] then [] else lines[0] + "\n" + Unlines(lines[1..])
  }

  lemma {:induction false} UnlinesAppend(a: seq<string>, b: seq<string>)
    ensures Unlines(a + b) == Unlines(a) + Unlines(b)
    decreases |a|
  {
    if a != [] {
      assert (a + b)[1..] == a[1..] + b;
      UnlinesAppend(a[1..], b);
    } else {
      assert a + b == b;
    }
  }

  /** Splitting newline-terminated lines at their newlines gives the lines back, and an
      empty piece after the last newline. */
  lemma {:induction false} LinesOfUnlines(lines: seq<string>)
    requires forall k :: 0 <= k < |lines| ==> '\n' !in lines[k]
    ensures Lines(Unlines(lines)) == lines + [""]
    decreases |lines|
  {
    if lines != [] {
      var rest := lines[1..];
      assert forall k :: 0 <= k < |rest| ==> rest[k] == lines[k + 1];
      LinesOfBreak(lines[0], Unlines(rest));
      LinesOfUnlines(rest);
      assert [lines[0]] + (rest + [""]) == lines + [""];
    }
  }

  lemma ConcatPrefixSuffix(a: string, b: string, c: string)
    ensures HasPrefix(a + b + c, a) && HasSuffix(a + b + c, c)
  {
    assert (a + b + c)[..|a|] == a;
    assert (a + b + c)[|a + b|..] == c;
  }

  lemma PrefixOfPrefix(s: string, t: string, u: string)
    requires HasPrefix(s, t) && HasPrefix(t, u)
    ensures HasPrefix(s, u)
  {
    assert s[..|u|] == t[..|u|];
  }
}
