/**
 * Concrete runs of the model on the repository's own demo inputs: the
 * broken adder written by the command-line entry point, and the two
 * pytest fixtures. Each run is first proved for any text of the same
 * shape, then for the repository's text.
 */
module Scenarios {
  import opened Wrappers
  import opened Text
  import opened AgentState
  import opened Coder
  import opened Oracle
  import opened Tester
  import opened Graph

  /** The file the command-line entry point writes before starting the
      loop, around its defective return line. */
  const DemoName: string := "broken_math.py"
  const DemoHead: string := "\nimport pytest\n\ndef add(a, b):\n    # Intentional bug: subtracting instead of adding\n    "
  const DemoTail: string := "\n\ndef test_add():\n    assert add(2, 3) == 5\n    assert add(10, 5) == 15\n"

  /** The header of the adder the collaborator returns. */
  const AddHeader: string := "def add(a, b):\n    "

  /** The function each pytest fixture defines, before its return line. */
  const StringFixtureName: string := "2.stringerror.py"
  const StringHeader: string := "def reverse_text(text):\n    "
  const LogicFixtureName: string := "4.logicerror.py"
  const LogicHeader: string := "def calculate_sum(a, b):\n    "

  /** No container runtime on any call: every test is simulated. */
  function NoDocker(call: nat): Probe {
    NoRuntime
  }

  /** A collaborator that answers every prompt with `code` in a fence. */
  function Answering(code: string): Collaborator {
    (call: nat, shown: string, log: string) => Fenced(code)
  }

  /** A collaborator that answers every prompt with `code` unfenced. */
  function Repeating(code: string): Collaborator {
    (call: nat, shown: string, log: string) => code
  }

  /** Characters the oracle's patterns and the fixtures' texts lack. */
  lemma PatternChars()
    ensures '-' !in Addition && '`' !in Addition && '`' !in Subtraction
  {
  }

  lemma FixtureChars()
    ensures 'b' !in StringHeader && 'b' !in Passthrough && 'b' !in Slice
    ensures 'v' !in StringFixtureName
  {
  }

  lemma HeaderChars()
    ensures '-' !in AddHeader && '`' !in AddHeader && !IsSpace(AddHeader[0])
  {
  }

  /** Under any file name, an adder returning `a + b` passes and one
      returning `a - b` fails. */
  lemma AdderVerdicts(header: string, filename: string)
    requires '-' !in header
    ensures Simulate(header + Addition, filename) == TestOutcome(true, OnePassed)
    ensures Simulate(header + Subtraction, filename) == TestOutcome(false, SubtractionFailure)
  {
    PatternChars();
    assert '-' !in header + Addition;
    MissingCharExcludes(header + Addition, Subtraction, '-');
    ContainsAtEnd(header, Addition);
    ContainsAtEnd(header, Subtraction);
  }

  /** A defective file repaired in one round: the first test fails on the
      subtraction, the collaborator's fenced reply is stored without its
      fence, the second test passes, and the run ends "fixed" after one
      coder run. */
  lemma FixedInOneRound(filename: string, head: string, tail: string, header: string)
    requires '-' !in header && '`' !in header && header != [] && !IsSpace(header[0])
    ensures var r := Run(filename, Some(head + Subtraction + tail), Answering(header + Addition), NoDocker);
      r.outcome == Ended && r.state.status == Fixed && r.state.errorLog == [] &&
      r.state.iterations == 1 && r.coderRuns == 1 &&
      r.file == Some(header + Addition) && r.state.currentCode == header + Addition &&
      r.trace == [TesterVisit, CoderVisit, TesterVisit]
  {
    var fixed := header + Addition;
    var llm := Answering(fixed);
    var f0 := Some(head + Subtraction + tail);
    var s0 := Initial(filename);
    ContainsBetween(head, Subtraction, tail);
    AdderVerdicts(header, filename);
    PatternChars();
    var s1 := Merge(s0, TesterOutput(Failed, SubtractionFailure));
    assert TesterNode(NoDocker(0), f0, s0.codeFilename) == Success(TesterOutput(Failed, SubtractionFailure));
    TesterContinues(s0, f0, llm, NoDocker, 0);
    assert '`' !in fixed && Trimmed(fixed);
    FencedRoundTrip(fixed);
    assert llm(0, PromptCode(f0), s1.errorLog) == Fenced(fixed);
    CoderContinues(s1, f0, llm, NoDocker, 0);
    var s2 := Merge(s1, CoderOutput(fixed, 1));
    assert TesterNode(NoDocker(1), Some(fixed), s2.codeFilename) == Success(TesterOutput(Fixed, ""));
    TesterEnds(s2, Some(fixed), llm, NoDocker, 1);
    RepairBounds(filename, f0, llm, NoDocker);
  }

  /** The demo file is repaired in one round by a collaborator that returns
      the fixed adder in a fence. */
  lemma DemoFixedInOneRound()
    ensures var r := Run(DemoName, Some(DemoHead + Subtraction + DemoTail), Answering(AddHeader + Addition), NoDocker);
      r.outcome == Ended && r.state.status == Fixed && r.state.iterations == 1 &&
      r.file == Some(AddHeader + Addition)
  {
    HeaderChars();
    FixedInOneRound(DemoName, DemoHead, DemoTail, AddHeader);
  }

  /** A reply without backticks or surrounding whitespace, repeated on every
      call, is what the coder stores on every call. */
  lemma RepeatedReplyStored(reply: string)
    requires '`' !in reply && Trimmed(reply)
    ensures forall k: nat, code: string, log: string :: StripFences(Repeating(reply)(k, code, log)) == reply
  {
    PlainReplyKept(reply);
  }

  /** The failing half of an exhausted run: six coder runs and a last test
      that still fails with the subtraction message. */
  lemma RepeatedDefectFails(filename: string, head: string, tail: string, header: string)
    requires '-' !in header && '`' !in header && header != [] && !IsSpace(header[0])
    ensures var r := Run(filename, Some(head + Subtraction + tail), Repeating(header + Subtraction), NoDocker);
      r.outcome == Ended && r.state.status == Failed && r.state.errorLog != [] &&
      r.state.iterations == 6 && r.coderRuns == 6
  {
    var broken := header + Subtraction;
    var llm := Repeating(broken);
    var f0 := Some(head + Subtraction + tail);
    var s0 := Initial(filename);
    ContainsBetween(head, Subtraction, tail);
    AdderVerdicts(header, filename);
    assert '`' !in broken && Trimmed(broken);
    RepeatedReplyStored(broken);
    assert Fails(TesterNode(NoDocker(0), f0, s0.codeFilename));
    assert Fails(TesterNode(NoRuntime, Some(broken), filename));
    forall k: nat, code: string, log: string
      ensures Fails(TesterNode(NoDocker(k + 1), Some(StripFences(llm(k, code, log))), s0.codeFilename))
    {
      assert StripFences(llm(k, code, log)) == broken;
    }
    FailingRepliesFailEveryTest(s0, f0, llm, NoDocker, 0, filename);
    EveryTestFails(s0, f0, llm, NoDocker, 0);
  }

  /** A collaborator that keeps returning defective code exhausts the loop:
      six coder runs, status "failed", a non-empty error log and the
      defective code left in the file. */
  lemma RepeatedDefectExhausts(filename: string, head: string, tail: string, header: string)
    requires '-' !in header && '`' !in header && header != [] && !IsSpace(header[0])
    ensures var r := Run(filename, Some(head + Subtraction + tail), Repeating(header + Subtraction), NoDocker);
      r.outcome == Ended && r.state.status == Failed && r.state.errorLog != [] &&
      r.state.iterations == 6 && r.coderRuns == 6 && r.file == Some(header + Subtraction)
  {
    var broken := header + Subtraction;
    var llm := Repeating(broken);
    RepeatedDefectFails(filename, head, tail, header);
    assert '`' !in broken && Trimmed(broken);
    RepeatedReplyStored(broken);
    var P := code => code == broken;
    StoredCodeFromReplies(Initial(filename), Some(head + Subtraction + tail), llm, NoDocker, 0, P);
  }

  /** The demo file, with a collaborator that keeps returning the broken adder. */
  lemma DemoExhausts()
    ensures var r := Run(DemoName, Some(DemoHead + Subtraction + DemoTail), Repeating(AddHeader + Subtraction), NoDocker);
      r.outcome == Ended && r.state.status == Failed && r.state.iterations == 6 &&
      r.file == Some(AddHeader + Subtraction)
  {
    HeaderChars();
    RepeatedDefectExhausts(DemoName, DemoHead, DemoTail, AddHeader);
  }

  /** Both pytest fixtures pass the simulated test under their own names. */
  lemma FixturesPass()
    ensures Simulate(LogicHeader + Addition, LogicFixtureName) == TestOutcome(true, OnePassed)
    ensures Simulate(StringHeader + Passthrough + Slice, StringFixtureName) == TestOutcome(true, OnePassed)
  {
    AdderVerdicts(LogicHeader, LogicFixtureName);
    FixtureChars();
    var code := StringHeader + Passthrough + Slice;
    assert 'b' !in code;
    MissingCharExcludes(code, Subtraction, 'b');
    MissingCharExcludes(code, Addition, 'b');
    MissingCharExcludes(StringFixtureName, ReverseTask, 'v');
    ContainsAtEnd(StringHeader + Passthrough, Slice);
  }

  /** The string fixture's correct code, saved under a name that mentions
      "reverse", fails the simulated test. */
  lemma CorrectReversalFailsUnderReverseName()
    ensures Simulate(StringHeader + Passthrough + Slice, "reverse_text.py") == TestOutcome(false, PassthroughFailure)
  {
    FixtureChars();
    var code := StringHeader + Passthrough + Slice;
    assert 'b' !in code;
    MissingCharExcludes(code, Subtraction, 'b');
    MissingCharExcludes(code, Addition, 'b');
    assert code == StringHeader + (Passthrough + Slice);
    ContainsAtEnd(StringHeader, Passthrough + Slice);
    assert StartsWith("reverse_text.py", ReverseTask);
    ReversedReturnStillFails(code, "reverse_text.py");
  }
}
