/**
 * The simulated test run used when no container runtime answers: a
 * first-match-wins chain of substring rules over the file's text and its
 * name, standing in for pytest.
 */
module Oracle {
  import opened Text

  /** What one test run yields: whether it passed and its captured output. */
  datatype TestOutcome = TestOutcome(passed: bool, output: string)

  const Subtraction: string := "return a - b"
  const Addition: string := "return a + b"
  const Passthrough: string := "return text"
  const ReverseTask: string := "reverse"
  const Slice: string := "[::-1]"
  const Reversed: string := "reversed"

  const SubtractionFailure: string := "FAILED: assert 5 == 8\nExpected 8, got 2 (Subtraction Detected)"
  const PassthroughFailure: string := "FAILED: assert 'hello' == 'olleh'"
  const OnePassed: string := "1 passed in 0.01s"
  const FixVerified: string := "Simulation: Fix Verified."

  /** The five rules, tried in order; the first that matches decides. */
  function Simulate(code: string, filename: string): (o: TestOutcome)
    // The closed form of the chain: it fails on the subtraction bug, or on
    // an unreversed passthrough in a reversal task that the addition rule
    // has not already passed.
    ensures !o.passed <==>
      Contains(code, Subtraction) ||
      (!Contains(code, Addition) && Contains(code, Passthrough) && Contains(filename, ReverseTask))
    ensures !o.passed ==> o.output != []
    // No rule matched: the optimistic default.
    ensures !Contains(code, Subtraction) && !Contains(code, Addition) &&
      !(Contains(code, Passthrough) && Contains(filename, ReverseTask)) &&
      !Contains(code, Slice) && !Contains(code, Reversed)
      ==> o == TestOutcome(true, FixVerified)
  {
    if Contains(code, Subtraction) then TestOutcome(false, SubtractionFailure)
    else if Contains(code, Addition) then TestOutcome(true, OnePassed)
    else if Contains(code, Passthrough) && Contains(filename, ReverseTask) then
      TestOutcome(false, PassthroughFailure)
    else if Contains(code, Slice) || Contains(code, Reversed) then TestOutcome(true, OnePassed)
    else TestOutcome(true, FixVerified)
  }

  /** Rule order: the subtraction rule wins over every later rule, even when
      the corrected addition is present in the same text. */
  lemma SubtractionWins(code: string, filename: string)
    requires Contains(code, Subtraction)
    ensures Simulate(code, filename) == TestOutcome(false, SubtractionFailure)
    ensures Contains(code, Addition) ==> !Simulate(code, filename).passed
  {
  }

  /** Rule order: the addition rule masks the reversal-task rule. */
  lemma AdditionMasksPassthrough(code: string, filename: string)
    requires !Contains(code, Subtraction) && Contains(code, Addition)
    ensures Simulate(code, filename) == TestOutcome(true, OnePassed)
  {
  }

  /** A file whose name does not mention a reversal task fails only on the
      subtraction bug. */
  lemma OnlySubtractionFailsElsewhere(code: string, filename: string)
    requires !Contains(filename, ReverseTask)
    ensures !Simulate(code, filename).passed <==> Contains(code, Subtraction)
  {
  }

  /** The passthrough rule also matches the reversed return: in a file whose
      name mentions "reverse", code returning `text[::-1]` fails, because
      "return text" is a prefix of "return text[::-1]" and the rule is
      tried before the reversal-idiom rule. */
  lemma ReversedReturnStillFails(code: string, filename: string)
    requires Contains(code, Passthrough + Slice) && Contains(filename, ReverseTask)
    requires !Contains(code, Subtraction) && !Contains(code, Addition)
    ensures Simulate(code, filename) == TestOutcome(false, PassthroughFailure)
  {
    ContainsPrefixOfPattern(code, Passthrough + Slice, Passthrough);
  }
}
