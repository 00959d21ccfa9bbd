/**
 * The coder node: it reads the target file (a placeholder when the file is
 * missing), hands that text and the last error log to the code-mutation
 * collaborator, strips Markdown code fences from the reply, overwrites the
 * file with the result and counts one more iteration.
 */
module Coder {
  import opened Wrappers
  import opened Text
  import opened AgentState

  const Fence: string := "```"
  const PythonFence: string := "```python"

  /** What the coder shows the collaborator when the file cannot be opened. */
  const FileMissing: string := "# File not found"

  /** The collaborator: given the number of earlier calls, the code shown and
      the error log, it returns a reply. It stands for the language-model
      service, whose replies are otherwise unconstrained. */
  type Collaborator = (nat, string, string) -> string

  /** The text the coder reads from the target file for the prompt. */
  function PromptCode(file: Option<string>): (text: string)
    ensures file.Some? ==> text == file.value
    ensures file.None? ==> text == FileMissing
  {
    match file
    case Some(contents) => contents
    case None => FileMissing
  }

  /** A fence starts exactly where three backticks do. */
  lemma FenceAt(s: string)
    ensures StartsWith(s, Fence) <==> |s| >= 3 && s[0] == '`' && s[1] == '`' && s[2] == '`'
  {
    if |s| >= 3 && s[0] == '`' && s[1] == '`' && s[2] == '`' {
      assert s[..3] == Fence;
    }
  }

  /** Where no fence starts, deletion keeps the first character. */
  lemma DeleteKeepsHead(s: string)
    requires s != [] && !StartsWith(s, Fence)
    ensures ReplaceAll(s, Fence, "") == [s[0]] + ReplaceAll(s[1..], Fence, "")
  {
  }

  /** Putting a character in front of fence-free text creates no fence
      unless a fence starts at that character. */
  lemma ConsKeepsNoFence(c: char, t: string)
    requires !Contains(t, Fence) && !StartsWith([c] + t, Fence)
    ensures !Contains([c] + t, Fence)
  {
    assert ([c] + t)[1..] == t;
  }

  /** A character that is not a backtick never starts a fence. */
  lemma ConsPlain(c: char, t: string)
    requires c != '`' && !Contains(t, Fence)
    ensures !Contains([c] + t, Fence)
  {
    FenceAt([c] + t);
    ConsKeepsNoFence(c, t);
  }

  /** Deleting every "```" leaves no "```" behind: a run of n backticks
      shrinks to n mod 3 of them, and the characters between runs stay. */
  lemma {:induction false} DeleteFencesLeavesNone(s: string)
    ensures !Contains(ReplaceAll(s, Fence, ""), Fence)
    decreases |s|, 2
  {
    FenceAt(s);
    if StartsWith(s, Fence) {
      DeleteFencesLeavesNone(s[3..]);
      assert ReplaceAll(s, Fence, "") == ReplaceAll(s[3..], Fence, "");
    } else if |s| < 3 {
      if Contains(s, Fence) {
        ContainsFits(s, Fence);
      }
    } else if s[0] != '`' {
      DeleteFencesLeavesNone(s[1..]);
      DeleteKeepsHead(s);
      ConsPlain(s[0], ReplaceAll(s[1..], Fence, ""));
    } else {
      DeleteKeepsHead(s);
      var r1 := ReplaceAll(s[1..], Fence, "");
      DeleteAfterTicks(s[1..], if s[1] == '`' then 1 else 0);
      FenceAt([s[0]] + r1);
      ConsKeepsNoFence(s[0], r1);
    }
  }

  /** The same below a run of `ticks` (at most one) backticks that is not
      followed by enough backticks to make a fence: the deletion result
      does not start with more than `ticks` backticks. */
  lemma {:induction false} DeleteAfterTicks(s: string, ticks: nat)
    requires ticks <= 1 && |s| > ticks
    requires forall i :: 0 <= i < ticks ==> s[i] == '`'
    requires s[ticks] != '`'
    ensures var r := ReplaceAll(s, Fence, "");
      !Contains(r, Fence) && r != [] && (ticks == 0 ==> r[0] != '`') &&
      (ticks == 1 ==> r[0] == '`' && |r| >= 2 && r[1] != '`')
    decreases |s|, ticks
  {
    FenceAt(s);
    DeleteKeepsHead(s);
    var r1 := ReplaceAll(s[1..], Fence, "");
    if ticks == 0 {
      DeleteFencesLeavesNone(s[1..]);
      ConsPlain(s[0], r1);
    } else {
      DeleteAfterTicks(s[1..], 0);
      FenceAt([s[0]] + r1);
      ConsKeepsNoFence(s[0], r1);
    }
  }

  /** The post-processing applied to every reply:
      `reply.replace("```python", "").replace("```", "").strip()`.
      The stored code never holds a fence and never starts or ends with
      whitespace. */
  function StripFences(reply: string): (code: string)
    ensures !Contains(code, Fence)
    ensures Trimmed(code)
  {
    var unfenced := ReplaceAll(ReplaceAll(reply, PythonFence, ""), Fence, "");
    DeleteFencesLeavesNone(ReplaceAll(reply, PythonFence, ""));
    StripKeepsAbsence(unfenced, Fence);
    Strip(unfenced)
  }

  /** Stripping an already stripped reply changes nothing, so a reply the
      collaborator returns without fences is stored as it came, trimmed. */
  lemma StripFencesIdempotent(reply: string)
    ensures StripFences(StripFences(reply)) == StripFences(reply)
  {
    var code := StripFences(reply);
    if Contains(code, PythonFence) {
      ContainsPrefixOfPattern(code, PythonFence, Fence);
    }
    StripTrimmed(code);
  }

  /** A reply that wraps code in a Markdown fence labelled python. */
  function Fenced(code: string): string {
    PythonFence + "\n" + code + "\n" + Fence
  }

  /** Both replacements together only remove the fence lines' backticks
      from a fenced reply whose code has no backtick. */
  lemma DeleteFenceMarkers(code: string)
    requires '`' !in code
    ensures ReplaceAll(ReplaceAll(Fenced(code), PythonFence, ""), Fence, "") == "\n" + code + "\n"
  {
    var body := "\n" + code + "\n";
    assert '`' !in body;
    assert Fenced(code) == PythonFence + (body + Fence);
    assert StartsWith(PythonFence + (body + Fence), PythonFence);
    assert (PythonFence + (body + Fence))[|PythonFence|..] == body + Fence;
    ReplaceSkipsPrefix(body, Fence, PythonFence, "");
    if Contains(Fence, PythonFence) {
      ContainsFits(Fence, PythonFence);
    }
    ReplaceSkipsPrefix(body, Fence, Fence, "");
    assert StartsWith(Fence, Fence);
    assert ReplaceAll(Fence, Fence, "") == "";
    assert ReplaceAll(Fenced(code), PythonFence, "") == body + Fence;
    assert ReplaceAll(body + Fence, Fence, "") == body;
  }

  /** Stripping removes the two newlines the fence lines leave around the code. */
  lemma StripNewlines(code: string)
    requires Trimmed(code)
    ensures Strip("\n" + code + "\n") == code
  {
    var body := "\n" + code + "\n";
    if code == [] {
      assert SpaceEnd(body, 0) == 2;
    } else {
      assert body[1] == code[0] && body[|body| - 2] == code[|code| - 1];
      assert SpaceEnd(body, 0) == SpaceEnd(body, 1) == 1;
      assert SpaceStart(body, 1, |body|) == SpaceStart(body, 1, |body| - 1) == |body| - 1;
      assert body[1..|body| - 1] == code;
    }
  }

  /** Undoing the fence: code without backticks and without whitespace at
      its ends comes back exactly from a fenced reply. */
  lemma FencedRoundTrip(code: string)
    requires '`' !in code && Trimmed(code)
    ensures StripFences(Fenced(code)) == code
  {
    DeleteFenceMarkers(code);
    StripNewlines(code);
  }

  /** A reply with no backtick and no whitespace at its ends is stored verbatim. */
  lemma PlainReplyKept(reply: string)
    requires '`' !in reply && Trimmed(reply)
    ensures StripFences(reply) == reply
  {
    MissingCharExcludes(reply, PythonFence, '`');
    MissingCharExcludes(reply, Fence, '`');
    StripTrimmed(reply);
  }

  /** The partial state the coder node returns for a collaborator reply. */
  function CoderNode(s: State, reply: string): (out: NodeOutput)
    ensures out.CoderOutput?
    ensures out.count == s.iterations + 1
    ensures !Contains(out.code, Fence) && Trimmed(out.code)
  {
    CoderOutput(StripFences(reply), s.iterations + 1)
  }

  /** One coder step on the state: the collaborator sees the file's text
      and the last error log; afterwards the file and `current_code` hold
      the stripped reply, `iterations` has grown by one, and `status` and
      `error_log` are as before. */
  lemma CoderStep(s: State, file: Option<string>, llm: Collaborator, call: nat)
    ensures var reply := llm(call, PromptCode(file), s.errorLog);
      var s' := Merge(s, CoderNode(s, reply));
      s'.iterations == s.iterations + 1 &&
      s'.status == s.status && s'.errorLog == s.errorLog &&
      s'.codeFilename == s.codeFilename &&
      s'.currentCode == StripFences(reply)
  {
  }
}
