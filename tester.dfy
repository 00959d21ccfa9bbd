/**
 * The tester node. Every call probes for a container runtime afresh. With
 * one, it looks for the sandbox container and runs pytest in it; without
 * one, it reads the target file and asks the simulated oracle. The outcome
 * becomes the partial state `{status, error_log}`.
 */
module Tester {
  import opened Wrappers
  import opened AgentState
  import opened Oracle

  /** What the environment answers to one tester call: no runtime, or a
      runtime together with whether the sandbox container was found and,
      if so, pytest's exit code and decoded output. */
  datatype Probe =
    | NoRuntime
    | Runtime(containerFound: bool, exitCode: int, output: string)

  const ContainerDied: string := "Container died unexpectedly."

  /** The exception the simulated branch lets escape when the target file
      cannot be opened for reading. */
  const FileNotFound: string := "FileNotFoundError"

  /** A test outcome as the tester reports it: a pass clears the error log,
      a failure records the output as the error log. */
  function Report(o: TestOutcome): (out: NodeOutput)
    ensures out.TesterOutput?
    ensures o.passed ==> out.verdict == Fixed && out.log == []
    ensures !o.passed ==> out.verdict == Failed && out.log == o.output
  {
    if o.passed then TesterOutput(Fixed, "") else TesterOutput(Failed, o.output)
  }

  /** A run inside a found container whose output is empty: the only kind of
      failure that leaves the error log empty. */
  predicate Silent(probe: Probe) {
    probe.Runtime? && probe.containerFound && probe.output == []
  }

  /** The tester node: its partial state, or the exception it raises. */
  function TesterNode(probe: Probe, file: Option<string>, filename: string): (r: Result<NodeOutput, string>)
    ensures r.Success? ==> r.value.TesterOutput? && (r.value.verdict == Fixed || r.value.verdict == Failed)
    ensures r.Success? && r.value.verdict == Fixed ==> r.value.log == []
    ensures r.Success? && r.value.verdict == Failed && !Silent(probe) ==> r.value.log != []
    // Only the simulated branch reads the file, and only a missing file raises.
    ensures r.Failure? <==> probe.NoRuntime? && file.None?
    ensures r.Failure? ==> r.error == FileNotFound
    // A vanished container is an ordinary failure.
    ensures probe.Runtime? && !probe.containerFound ==> r == Success(TesterOutput(Failed, ContainerDied))
    // In a container, pytest's exit code alone decides.
    ensures probe.Runtime? && probe.containerFound ==>
      r.Success? && (r.value.verdict == Fixed <==> probe.exitCode == 0) &&
      (probe.exitCode != 0 ==> r.value.log == probe.output)
    ensures probe.NoRuntime? && file.Some? ==> r == Success(Report(Simulate(file.value, filename)))
  {
    match probe
    case Runtime(found, exitCode, output) =>
      if !found then Success(TesterOutput(Failed, ContainerDied))
      else Success(Report(TestOutcome(exitCode == 0, output)))
    case NoRuntime =>
      match file
      case None => Failure(FileNotFound)
      case Some(code) => Success(Report(Simulate(code, filename)))
  }
}
