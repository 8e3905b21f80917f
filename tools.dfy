/**
 * The tool `execCommand` as the agent loop sees it: the shell's answer is an
 * input, and a resolved command is reported to the model as one text that
 * labels the two output streams.
 */
module Tools {
  import opened Wrappers
  import opened Strings

  /** How the promise returned by `execCommand` settles: it resolves with the
      captured streams, or rejects when `exec` reports an error (the command
      could not be started or exited with a failure status). */
  datatype ExecOutcome = Resolved(stdout: string, stderr: string) | Rejected

  const StdoutLabel: string := "stdout: "
  const StderrLabel: string := "\nstderr:"

  /** The text a resolved `execCommand` yields. */
  function ExecResultText(stdout: string, stderr: string): string {
    StdoutLabel + stdout + StderrLabel + stderr
  }

  /** Reads the two streams back out of a result text: everything between
      the stdout label and the first stderr label, and everything after it. */
  function SplitExecResult(text: string): (r: Option<(string, string)>)
    ensures r.Some? ==> text == ExecResultText(r.value.0, r.value.1) && !Contains(r.value.0, StderrLabel)
  {
    if !StartsWith(text, StdoutLabel) then None
    else
      match IndexOf(text, StderrLabel, |StdoutLabel|)
      case None => None
      case Some(i) =>
        var out, err := text[|StdoutLabel|..i], text[i + |StderrLabel|..];
        assert text == StdoutLabel + out + StderrLabel + err by {
          assert text[..|StdoutLabel|] == StdoutLabel;
          assert text[i..i + |StderrLabel|] == StderrLabel;
        }
        NoLabelBeforeFirst(text, i, out);
        Some((out, err))
  }

  /** A label inside the stdout part would be an earlier occurrence. */
  lemma NoLabelBeforeFirst(text: string, i: nat, out: string)
    requires |StdoutLabel| <= i <= |text| && out == text[|StdoutLabel|..i]
    requires forall j :: |StdoutLabel| <= j < i ==> !OccursAt(text, StderrLabel, j)
    ensures !Contains(out, StderrLabel)
  {
    forall k | 0 <= k < |out|
      ensures !OccursAt(out, StderrLabel, k)
    {
      OccursInSlice(text, |StdoutLabel|, i, StderrLabel, k);
    }
    ContainsAt(out, StderrLabel);
  }

  /** The streams are recovered from the result text whenever stdout does not
      itself contain the stderr label.  The label has no proper prefix that is
      also a suffix, so no occurrence can straddle stdout and the label. */
  lemma ExecResultRoundTrip(stdout: string, stderr: string)
    requires !Contains(stdout, StderrLabel)
    ensures SplitExecResult(ExecResultText(stdout, stderr)) == Some((stdout, stderr))
  {
    var text := ExecResultText(stdout, stderr);
    var at := |StdoutLabel| + |stdout|;
    assert text[..|StdoutLabel|] == StdoutLabel;
    assert text[at..at + |StderrLabel|] == StderrLabel;
    assert OccursAt(text, StderrLabel, at);
    FirstLabelAfterStdout(stdout, stderr);
    assert IndexOf(text, StderrLabel, |StdoutLabel|) == Some(at);
    assert text[|StdoutLabel|..at] == stdout;
    assert text[at + |StderrLabel|..] == stderr;
  }

  lemma FirstLabelAfterStdout(stdout: string, stderr: string)
    requires !Contains(stdout, StderrLabel)
    ensures forall j :: |StdoutLabel| <= j < |StdoutLabel| + |stdout| ==>
                        !OccursAt(ExecResultText(stdout, stderr), StderrLabel, j)
  {
    var text := ExecResultText(stdout, stderr);
    var at := |StdoutLabel| + |stdout|;
    assert text[|StdoutLabel|..at] == stdout;
    assert text[at..at + |StderrLabel|] == StderrLabel;
    forall j | |StdoutLabel| <= j < at
      ensures !OccursAt(text, StderrLabel, j)
    {
      NoLabelAt(text, |StdoutLabel|, at, j);
    }
  }

  /** No occurrence of the label starts inside a label-free part
      `text[start..at]` that the label itself follows. */
  lemma NoLabelAt(text: string, start: nat, at: nat, j: int)
    requires start <= at && at + |StderrLabel| <= |text| && text[at..at + |StderrLabel|] == StderrLabel
    requires !Contains(text[start..at], StderrLabel)
    requires start <= j < at
    ensures !OccursAt(text, StderrLabel, j)
  {
    if j + |StderrLabel| <= at {
      OccursInSlice(text, start, at, StderrLabel, j - start);
      ContainsAt(text[start..at], StderrLabel);
    } else {
      LabelCannotStraddle(text, at, j);
    }
  }

  /** The label starts with the only line break it has, so an occurrence that
      begins inside another one is impossible. */
  lemma LabelCannotStraddle(text: string, at: nat, j: int)
    requires at + |StderrLabel| <= |text| && text[at..at + |StderrLabel|] == StderrLabel
    requires at - |StderrLabel| < j < at
    ensures !OccursAt(text, StderrLabel, j)
  {
    assert text[at] == StderrLabel[0];
    if 0 <= j && j + |StderrLabel| <= |text| {
      assert text[j..j + |StderrLabel|][at - j] == text[at];
    }
  }

  /** The converse: a stdout that contains the label is not recovered, so the
      observation the model receives can misattribute output to stderr. */
  lemma ExecResultAmbiguous()
    ensures ExecResultText("a" + StderrLabel + "b", "") == ExecResultText("a", "b" + StderrLabel)
    ensures SplitExecResult(ExecResultText("a" + StderrLabel + "b", "")) != Some(("a" + StderrLabel + "b", ""))
  {
    ExecResultRoundTrip("a", "b" + StderrLabel);
  }
}
