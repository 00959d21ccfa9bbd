/**
 * The repair loop as it executes: a session object holds the keys of the
 * state dictionary and the contents of the target file on disk, the two
 * nodes update them in place, and `Run` follows the graph's edges from the
 * entry node until the routing ends the run or a node raises.
 */
module Repair {
  import opened Wrappers
  import opened AgentState
  import opened Coder
  import opened Oracle
  import opened Tester
  import opened Graph

  /** The node the loop is about to execute, or that it has stopped. */
  datatype Step = AtTester | AtCoder | Stopped

  /** Rank of a step, so that each tester→coder and tester→stop move decreases it. */
  function Rank(step: Step): nat {
    match step
    case AtTester => 2
    case AtCoder => 1
    case Stopped => 0
  }

  /** The rest `r` of a run, after `runs` coder runs so far, ends as `goal` does. */
  ghost predicate Completes(r: Final, runs: nat, goal: Final) {
    r.outcome == goal.outcome && r.state == goal.state && r.file == goal.file &&
    runs + r.coderRuns == goal.coderRuns
  }

  /** After a tester call on `before` that left `after` (or raised), the
      rest of the run is what the graph defines from there. */
  lemma AfterTest(before: State, onDisk: Option<string>, llm: Collaborator, env: Environment, t: nat,
                  runs: nat, goal: Final, after: State, raised: Option<string>)
    requires Completes(RunTester(before, onDisk, llm, env, t), runs, goal)
    requires var r := TesterNode(env(t), onDisk, before.codeFilename);
      (r.Success? ==> raised == None && after == Merge(before, r.value)) &&
      (r.Failure? ==> raised == Some(r.error) && after == before)
    ensures raised.Some? ==> Completes(Final(Raised(raised.value), after, onDisk, 0, []), runs, goal)
    ensures raised.None? && ShouldContinue(after) == End ==>
      Completes(Final(Ended, after, onDisk, 0, []), runs, goal)
    ensures raised.None? && ShouldContinue(after) == ToCoder ==>
      after.iterations <= MaxIterations && Completes(RunCoder(after, onDisk, llm, env, t), runs, goal)
  {
    var r := TesterNode(env(t), onDisk, before.codeFilename);
    if r.Failure? {
      TesterRaises(before, onDisk, llm, env, t);
    } else if ShouldContinue(after) == End {
      TesterEnds(before, onDisk, llm, env, t);
    } else {
      TesterContinues(before, onDisk, llm, env, t);
    }
  }

  /** After the coder's `call`-th call on `before`, the rest of the run is
      the run from the tester's call `next` over the stored code, with one
      more coder run done. */
  lemma AfterCode(before: State, onDisk: Option<string>, llm: Collaborator, env: Environment,
                  call: nat, next: nat, runs: nat, goal: Final)
    requires before.iterations <= MaxIterations && next == call + 1
    requires Completes(RunCoder(before, onDisk, llm, env, call), runs, goal)
    ensures var out := CoderNode(before, llm(call, PromptCode(onDisk), before.errorLog));
      Completes(RunTester(Merge(before, out), Some(out.code), llm, env, next), runs + 1, goal)
  {
    CoderContinues(before, onDisk, llm, env, call);
  }

  class Session {
    const codeFilename: string
    var errorLog: string
    var currentCode: string
    var iterations: int
    var status: string
    /** The target file on disk; `None` when it does not exist. */
    var file: Option<string>

    /** The state dictionary these fields make up. */
    function Snapshot(): State
      reads this
    {
      State(codeFilename, errorLog, currentCode, iterations, status)
    }

    /** A session over `filename`, started the way every caller starts the
        graph. */
    constructor (filename: string, contents: Option<string>)
      ensures Snapshot() == Initial(filename) && file == contents
    {
      codeFilename := filename;
      errorLog := "";
      currentCode := "";
      iterations := 0;
      status := Start;
      file := contents;
    }

    /** The coder node: read the file (or the placeholder), ask the
        collaborator, strip fences, overwrite the file and count the run. */
    method Code(llm: Collaborator, call: nat)
      modifies this
      ensures var reply := llm(call, PromptCode(old(file)), old(errorLog));
        Snapshot() == Merge(old(Snapshot()), CoderNode(old(Snapshot()), reply))
      ensures file == Some(currentCode)
      ensures iterations == old(iterations) + 1
      ensures status == old(status) && errorLog == old(errorLog)
    {
      var shown := if file.Some? then file.value else FileMissing;
      var reply := llm(call, shown, errorLog);
      var fixed := StripFences(reply);
      file := Some(fixed);
      currentCode := fixed;
      iterations := iterations + 1;
    }

    /** The tester node with the environment's answer `probe`: it either
        writes `status` and `error_log` or raises, writing nothing. */
    method Test(probe: Probe) returns (raised: Option<string>)
      modifies this
      ensures file == old(file) && currentCode == old(currentCode) && iterations == old(iterations)
      ensures var r := TesterNode(probe, old(file), codeFilename);
        (r.Success? ==> raised == None && Snapshot() == Merge(old(Snapshot()), r.value)) &&
        (r.Failure? ==> raised == Some(r.error) && Snapshot() == old(Snapshot()))
    {
      var passed: bool;
      var output: string;
      match probe {
        case Runtime(found, exitCode, out) =>
          if !found {
            status, errorLog := Failed, ContainerDied;
            return None;
          }
          passed, output := exitCode == 0, out;
        case NoRuntime =>
          if file.None? {
            return Some(FileNotFound);
          }
          var o := Simulate(file.value, codeFilename);
          passed, output := o.passed, o.output;
      }
      if passed {
        status, errorLog := Fixed, "";
      } else {
        status, errorLog := Failed, output;
      }
      raised := None;
    }

    /** Execute the graph from its entry node: the outcome, the final state,
        the file and the number of coder runs are those of the run the graph
        defines. */
    method Run(llm: Collaborator, env: Environment) returns (outcome: Outcome, coderRuns: nat)
      modifies this
      ensures Completes(RunTester(old(Snapshot()), old(file), llm, env, 0), 0, Final(outcome, Snapshot(), file, coderRuns, []))
      ensures iterations == old(iterations) + coderRuns
    {
      ghost var goal := RunTester(Snapshot(), file, llm, env, 0);
      var next := AtTester;
      var t: nat := 0;
      coderRuns := 0;
      outcome := Ended;
      while next != Stopped
        invariant coderRuns == t
        invariant iterations == old(iterations) + coderRuns
        invariant next == AtTester ==> Completes(RunTester(Snapshot(), file, llm, env, t), coderRuns, goal)
        invariant next == AtCoder ==>
          iterations <= MaxIterations && Completes(RunCoder(Snapshot(), file, llm, env, t), coderRuns, goal)
        invariant next == Stopped ==> Completes(Final(outcome, Snapshot(), file, 0, []), coderRuns, goal)
        decreases Budget(iterations), Rank(next)
      {
        if next == AtTester {
          ghost var before, onDisk := Snapshot(), file;
          var raised := Test(env(t));
          AfterTest(before, onDisk, llm, env, t, coderRuns, goal, Snapshot(), raised);
          if raised.Some? {
            outcome, next := Raised(raised.value), Stopped;
          } else if ShouldContinue(Snapshot()) == End {
            outcome, next := Ended, Stopped;
          } else {
            next := AtCoder;
          }
        } else {
          ghost var before, onDisk, runs := Snapshot(), file, coderRuns;
          var call := t;
          Code(llm, call);
          t, coderRuns := t + 1, coderRuns + 1;
          AfterCode(before, onDisk, llm, env, call, t, runs, goal);
          ghost var out := CoderNode(before, llm(call, PromptCode(onDisk), before.errorLog));
          assert Snapshot() == Merge(before, out) && file == Some(out.code);
          next := AtTester;
        }
      }
    }
  }

  /** What a caller does: start a session over the file and run the graph.
      The run ends with at most six coder runs, counted by `iterations`,
      and "fixed" or "failed" unless the first test raised. */
  method Repair(filename: string, contents: Option<string>, llm: Collaborator, env: Environment)
    returns (session: Session, outcome: Outcome, coderRuns: nat)
    ensures fresh(session)
    ensures Completes(Run(filename, contents, llm, env), 0, Final(outcome, session.Snapshot(), session.file, coderRuns, []))
    ensures session.iterations == coderRuns <= MaxIterations + 1
    ensures outcome.Ended? ==> session.status == Fixed || (session.status == Failed && coderRuns == MaxIterations + 1)
    ensures outcome.Raised? <==> env(0).NoRuntime? && contents.None?
  {
    session := new Session(filename, contents);
    outcome, coderRuns := session.Run(llm, env);
    RepairBounds(filename, contents, llm, env);
  }
}
