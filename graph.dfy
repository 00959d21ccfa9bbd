/**
 * The compiled repair graph: `tester` is the entry node, `coder` always
 * hands over to `tester`, and after `tester` the routing function either
 * ends the run or sends it to `coder`. The run is given here as a pure
 * function of the initial state, the file on disk, the collaborator's
 * replies and the environment's answers; the `Session` class executes the
 * same graph step by step.
 */
module Graph {
  import opened Wrappers
  import opened AgentState
  import opened Coder
  import opened Tester

  /** The literal the routing compares `iterations` against. */
  const MaxIterations: int := 5

  /** Where the run goes after the tester. */
  datatype Route = ToCoder | End

  /** `should_continue`: end once fixed, or once more than five coder runs
      have been counted; otherwise repair again. */
  function ShouldContinue(s: State): (route: Route)
    ensures route == End <==> s.status == Fixed || s.iterations > MaxIterations
  {
    if s.status == Fixed then End
    else if s.iterations > MaxIterations then End
    else ToCoder
  }

  /** The environment's answer to the probe of each tester call, by call number. */
  type Environment = nat -> Probe

  /** A node the run visits. */
  datatype Node = TesterVisit | CoderVisit

  /** How a run stops: by routing to the end, or by an exception escaping a node. */
  datatype Outcome = Ended | Raised(error: string)

  /** Everything a finished run leaves behind: how it stopped, the last
      state, the file on disk, the number of coder runs and the nodes it
      visited, in order. */
  datatype Final = Final(outcome: Outcome, state: State, file: Option<string>, coderRuns: nat, trace: seq<Node>)

  /** The coder runs still allowed by the routing from `iterations` on. */
  function Budget(iterations: int): nat {
    if iterations > MaxIterations then 0 else MaxIterations + 1 - iterations
  }

  /** The run from the tester node, whose `t`-th call this is. */
  function RunTester(s: State, file: Option<string>, llm: Collaborator, env: Environment, t: nat): (r: Final)
    ensures r.trace != [] && r.trace[0] == TesterVisit
    // A run stops either where the routing ends it or where the first test raises.
    ensures r.outcome.Ended? ==> ShouldContinue(r.state) == End
    ensures r.outcome.Raised? ==> r.coderRuns == 0 && r.trace == [TesterVisit]
    decreases Budget(s.iterations), 1
  {
    match TesterNode(env(t), file, s.codeFilename)
    case Failure(e) => Final(Raised(e), s, file, 0, [TesterVisit])
    case Success(out) =>
      var s' := Merge(s, out);
      if ShouldContinue(s') == End then Final(Ended, s', file, 0, [TesterVisit])
      else
        var rest := RunCoder(s', file, llm, env, t);
        rest.(trace := [TesterVisit] + rest.trace)
  }

  /** The run from the coder node; it is reached only while the routing
      still allows a coder run. */
  function RunCoder(s: State, file: Option<string>, llm: Collaborator, env: Environment, t: nat): (r: Final)
    requires s.iterations <= MaxIterations
    // The coder always hands over to the tester, so the run goes on to a
    // routing end.
    ensures r.outcome == Ended && ShouldContinue(r.state) == End && r.coderRuns >= 1
    ensures r.trace != [] && r.trace[0] == CoderVisit
    decreases Budget(s.iterations), 0
  {
    var out := CoderNode(s, llm(t, PromptCode(file), s.errorLog));
    var rest := RunTester(Merge(s, out), Some(out.code), llm, env, t + 1);
    rest.(coderRuns := rest.coderRuns + 1, trace := [CoderVisit] + rest.trace)
  }

  /** A whole run, from the state every caller starts with. */
  function Run(filename: string, file: Option<string>, llm: Collaborator, env: Environment): (r: Final)
    ensures r.trace != [] && r.trace[0] == TesterVisit
    ensures r.outcome.Ended? ==> ShouldContinue(r.state) == End
  {
    RunTester(Initial(filename), file, llm, env, 0)
  }

  /** Proof step, unfolding `RunTester` once: when the test raises, the run
      stops there, with the state and the file as they were. */
  lemma TesterRaises(s: State, file: Option<string>, llm: Collaborator, env: Environment, t: nat)
    requires TesterNode(env(t), file, s.codeFilename).Failure?
    ensures var r := RunTester(s, file, llm, env, t);
      r.outcome == Raised(TesterNode(env(t), file, s.codeFilename).error) &&
      r.state == s && r.file == file && r.coderRuns == 0
  {
  }

  /** Proof step, unfolding `RunTester` once: the routing ends the run. */
  lemma TesterEnds(s: State, file: Option<string>, llm: Collaborator, env: Environment, t: nat)
    requires var r := TesterNode(env(t), file, s.codeFilename);
      r.Success? && ShouldContinue(Merge(s, r.value)) == End
    ensures var r := RunTester(s, file, llm, env, t);
      r.outcome == Ended && r.state == Merge(s, TesterNode(env(t), file, s.codeFilename).value) &&
      r.file == file && r.coderRuns == 0
  {
  }

  /** Proof step, unfolding `RunTester` once: when the routing sends the run
      to the coder, the rest of the run is the run from the coder node. */
  lemma TesterContinues(s: State, file: Option<string>, llm: Collaborator, env: Environment, t: nat)
    requires var r := TesterNode(env(t), file, s.codeFilename);
      r.Success? && ShouldContinue(Merge(s, r.value)) == ToCoder
    ensures var s' := Merge(s, TesterNode(env(t), file, s.codeFilename).value);
      s'.iterations <= MaxIterations &&
      var r, rest := RunTester(s, file, llm, env, t), RunCoder(s', file, llm, env, t);
      r.outcome == rest.outcome && r.state == rest.state && r.file == rest.file &&
      r.coderRuns == rest.coderRuns
  {
  }

  /** Proof step, unfolding `RunCoder` once: one more coder run, then the
      run from the tester node over the stored code. */
  lemma CoderContinues(s: State, file: Option<string>, llm: Collaborator, env: Environment, t: nat)
    requires s.iterations <= MaxIterations
    ensures var out := CoderNode(s, llm(t, PromptCode(file), s.errorLog));
      var r, rest := RunCoder(s, file, llm, env, t), RunTester(Merge(s, out), Some(out.code), llm, env, t + 1);
      r.outcome == rest.outcome && r.state == rest.state && r.file == rest.file &&
      r.coderRuns == rest.coderRuns + 1
  {
  }

  /** The visit order of a run with `n` coder runs: tester first and last,
      strictly alternating in between. */
  function Alternation(n: nat): (trace: seq<Node>)
    ensures |trace| == 2 * n + 1
    ensures forall i :: 0 <= i < |trace| ==> (trace[i] == CoderVisit <==> i % 2 == 1)
  {
    if n == 0 then [TesterVisit] else [TesterVisit, CoderVisit] + Alternation(n - 1)
  }

  /** The tester call ended in a genuine test failure. */
  predicate Fails(r: Result<NodeOutput, string>) {
    r.Success? && r.value.TesterOutput? && r.value.verdict == Failed
  }

  /** What every run from the tester node satisfies: each coder run counts
      one iteration, no more coder runs happen than the routing allows,
      the nodes alternate, the file holds the last stored code, and only
      the very first tester call can raise. */
  lemma {:induction false} RunTesterShape(s: State, file: Option<string>, llm: Collaborator, env: Environment, t: nat)
    ensures var r := RunTester(s, file, llm, env, t);
      r.state.iterations == s.iterations + r.coderRuns &&
      r.coderRuns <= Budget(s.iterations) &&
      r.state.codeFilename == s.codeFilename &&
      (r.outcome.Ended? ==>
         ShouldContinue(r.state) == End && (r.state.status == Fixed || r.state.status == Failed)) &&
      (r.outcome.Raised? ==> r.coderRuns == 0 && r.state == s && env(t).NoRuntime? && file.None?) &&
      (r.coderRuns == 0 ==> r.file == file) &&
      (r.coderRuns > 0 ==> r.file == Some(r.state.currentCode))
    decreases Budget(s.iterations), 1
  {
    match TesterNode(env(t), file, s.codeFilename)
    case Failure(e) =>
    case Success(out) =>
      var s' := Merge(s, out);
      if ShouldContinue(s') != End {
        RunCoderShape(s', file, llm, env, t);
      }
  }

  /** The same facts for a run that starts at the coder node. */
  lemma {:induction false} RunCoderShape(s: State, file: Option<string>, llm: Collaborator, env: Environment, t: nat)
    requires s.iterations <= MaxIterations
    ensures var r := RunCoder(s, file, llm, env, t);
      r.state.iterations == s.iterations + r.coderRuns &&
      1 <= r.coderRuns <= Budget(s.iterations) &&
      r.state.codeFilename == s.codeFilename &&
      r.outcome == Ended && ShouldContinue(r.state) == End &&
      (r.state.status == Fixed || r.state.status == Failed) &&
      r.file == Some(r.state.currentCode)
    decreases Budget(s.iterations), 0
  {
    var out := CoderNode(s, llm(t, PromptCode(file), s.errorLog));
    var s' := Merge(s, out);
    RunTesterShape(s', Some(out.code), llm, env, t + 1);
    var r, rest := RunCoder(s, file, llm, env, t), RunTester(s', Some(out.code), llm, env, t + 1);
    assert r == rest.(coderRuns := rest.coderRuns + 1, trace := [CoderVisit] + rest.trace);
    assert Budget(s'.iterations) + 1 == Budget(s.iterations);
  }

  /** The nodes of a run from the tester node alternate, tester first and
      last, one coder visit per coder run. */
  lemma {:induction false} RunTesterTrace(s: State, file: Option<string>, llm: Collaborator, env: Environment, t: nat)
    ensures var r := RunTester(s, file, llm, env, t); r.trace == Alternation(r.coderRuns)
    decreases Budget(s.iterations), 1
  {
    match TesterNode(env(t), file, s.codeFilename)
    case Failure(e) =>
    case Success(out) =>
      var s' := Merge(s, out);
      if ShouldContinue(s') != End {
        RunCoderTrace(s', file, llm, env, t);
      }
  }

  /** The same for a run from the coder node, which starts with the coder. */
  lemma {:induction false} RunCoderTrace(s: State, file: Option<string>, llm: Collaborator, env: Environment, t: nat)
    requires s.iterations <= MaxIterations
    ensures var r := RunCoder(s, file, llm, env, t); [TesterVisit] + r.trace == Alternation(r.coderRuns)
    decreases Budget(s.iterations), 0
  {
    var out := CoderNode(s, llm(t, PromptCode(file), s.errorLog));
    var s' := Merge(s, out);
    RunTesterTrace(s', Some(out.code), llm, env, t + 1);
    var r, rest := RunCoder(s, file, llm, env, t), RunTester(s', Some(out.code), llm, env, t + 1);
    assert r.trace == [CoderVisit] + rest.trace && r.coderRuns == rest.coderRuns + 1;
    AlternationStep(rest.coderRuns, rest.trace);
  }

  /** One more coder run adds a coder and a tester visit in front. */
  lemma AlternationStep(n: nat, trace: seq<Node>)
    requires trace == Alternation(n)
    ensures [TesterVisit] + ([CoderVisit] + trace) == Alternation(n + 1)
  {
    assert [TesterVisit] + ([CoderVisit] + trace) == [TesterVisit, CoderVisit] + trace;
  }

  /** From the initial state: the run always ends, with between zero and six
      coder runs, `iterations` equal to their number, and a final status
      that is "fixed", or "failed" with exactly six iterations and the last
      failure's output, non-empty unless that container run was silent; it
      raises only when the very first test cannot open a missing file. */
  lemma RepairBounds(filename: string, file: Option<string>, llm: Collaborator, env: Environment)
    ensures var r := Run(filename, file, llm, env);
      0 <= r.state.iterations == r.coderRuns <= MaxIterations + 1 &&
      r.trace == Alternation(r.coderRuns) &&
      (r.outcome.Ended? ==>
        r.state.status == Fixed ||
        (r.state.status == Failed && r.state.iterations == MaxIterations + 1)) &&
      (r.outcome.Raised? <==> env(0).NoRuntime? && file.None?) &&
      (r.outcome.Ended? && r.state.status == Failed && !Silent(env(r.coderRuns)) ==> r.state.errorLog != [])
  {
    var s := Initial(filename);
    RunTesterShape(s, file, llm, env, 0);
    RunTesterTrace(s, file, llm, env, 0);
    EveryTestFails(s, file, llm, env, 0);
  }

  /** A first test that passes ends the run at once: "fixed", no coder run,
      `iterations` as it was and the file untouched. */
  lemma FirstTestPasses(s: State, file: Option<string>, llm: Collaborator, env: Environment, t: nat)
    requires var r := TesterNode(env(t), file, s.codeFilename); r.Success? && r.value.verdict == Fixed
    ensures var r := RunTester(s, file, llm, env, t);
      r.outcome == Ended && r.state.status == Fixed && r.state.errorLog == [] &&
      r.state.iterations == s.iterations && r.coderRuns == 0 && r.file == file &&
      r.trace == [TesterVisit]
  {
  }

  /** Every test of the run from the tester node fails: the `t`-th test
      fails and, where the routing sends the run on, so does every test
      after the coder's repair. */
  ghost predicate TestsFail(s: State, file: Option<string>, llm: Collaborator, env: Environment, t: nat)
    decreases Budget(s.iterations), 1
  {
    var tested := TesterNode(env(t), file, s.codeFilename);
    Fails(tested) &&
    (ShouldContinue(Merge(s, tested.value)) == ToCoder ==>
       RepairTestsFail(Merge(s, tested.value), file, llm, env, t))
  }

  /** Every test of the run from the coder node fails. */
  ghost predicate RepairTestsFail(s: State, file: Option<string>, llm: Collaborator, env: Environment, t: nat)
    requires s.iterations <= MaxIterations
    decreases Budget(s.iterations), 0
  {
    var out := CoderNode(s, llm(t, PromptCode(file), s.errorLog));
    TestsFail(Merge(s, out), Some(out.code), llm, env, t + 1)
  }

  /** Every test of a run fails exactly when the run ends "failed". Then it
      ends after exactly as many coder runs as the routing allows (six from
      the initial state), and the error log holds the last failure's output,
      which is empty only after a silent container run. */
  lemma {:induction false} EveryTestFails(s: State, file: Option<string>, llm: Collaborator, env: Environment, t: nat)
    requires s.iterations <= MaxIterations + 1
    ensures var r := RunTester(s, file, llm, env, t);
      (TestsFail(s, file, llm, env, t) <==> r.outcome == Ended && r.state.status == Failed) &&
      (TestsFail(s, file, llm, env, t) ==>
         r.state.iterations == MaxIterations + 1 && r.coderRuns == Budget(s.iterations) &&
         (!Silent(env(t + r.coderRuns)) ==> r.state.errorLog != []))
    decreases Budget(s.iterations), 1
  {
    var tested := TesterNode(env(t), file, s.codeFilename);
    if tested.Failure? {
      TesterRaises(s, file, llm, env, t);
    } else if ShouldContinue(Merge(s, tested.value)) == End {
      TesterEnds(s, file, llm, env, t);
      var r := RunTester(s, file, llm, env, t);
      assert r.state.errorLog == tested.value.log && t + r.coderRuns == t;
    } else {
      TesterContinues(s, file, llm, env, t);
      var s' := Merge(s, tested.value);
      assert Fails(tested) && TestsFail(s, file, llm, env, t) == RepairTestsFail(s', file, llm, env, t);
      EveryRepairTestFails(s', file, llm, env, t);
    }
  }

  /** The same for a run from the coder node, which always ends by routing. */
  lemma {:induction false} EveryRepairTestFails(s: State, file: Option<string>, llm: Collaborator, env: Environment, t: nat)
    requires s.iterations <= MaxIterations
    ensures var r := RunCoder(s, file, llm, env, t);
      (RepairTestsFail(s, file, llm, env, t) <==> r.state.status == Failed) &&
      (RepairTestsFail(s, file, llm, env, t) ==>
         r.state.iterations == MaxIterations + 1 && r.coderRuns == Budget(s.iterations) &&
         (!Silent(env(t + r.coderRuns)) ==> r.state.errorLog != []))
    decreases Budget(s.iterations), 0
  {
    CoderContinues(s, file, llm, env, t);
    var out := CoderNode(s, llm(t, PromptCode(file), s.errorLog));
    var s' := Merge(s, out);
    EveryTestFails(s', Some(out.code), llm, env, t + 1);
    assert RepairTestsFail(s, file, llm, env, t) == TestsFail(s', Some(out.code), llm, env, t + 1);
    assert Budget(s'.iterations) + 1 == Budget(s.iterations);
    var r, rest := RunCoder(s, file, llm, env, t), RunTester(s', Some(out.code), llm, env, t + 1);
    assert t + r.coderRuns == t + 1 + rest.coderRuns;
  }

  /** The collaborator never repairs the file named `filename`: the test of
      every reply it could give, on any call, fails. */
  ghost predicate RepliesFail(llm: Collaborator, env: Environment, filename: string) {
    forall k: nat, code: string, log: string ::
      Fails(TesterNode(env(k + 1), Some(StripFences(llm(k, code, log))), filename))
  }

  /** A collaborator that never repairs the file makes every test of a run
      fail once the first one does. */
  lemma {:induction false} FailingRepliesFailEveryTest(s: State, file: Option<string>, llm: Collaborator, env: Environment,
                                                       t: nat, filename: string)
    requires Fails(TesterNode(env(t), file, s.codeFilename))
    requires s.codeFilename == filename && RepliesFail(llm, env, filename)
    ensures TestsFail(s, file, llm, env, t)
    decreases Budget(s.iterations)
  {
    var s' := Merge(s, TesterNode(env(t), file, s.codeFilename).value);
    if ShouldContinue(s') == ToCoder {
      var reply := llm(t, PromptCode(file), s'.errorLog);
      var out := CoderNode(s', reply);
      assert Fails(TesterNode(env(t + 1), Some(StripFences(reply)), filename));
      FailingRepliesFailEveryTest(Merge(s', out), Some(out.code), llm, env, t + 1, filename);
    }
  }

  /** Whatever every stored reply satisfies, the code the run leaves in the
      file satisfies too: after any coder run the file and `current_code`
      hold the last stripped reply. */
  lemma {:induction false} StoredCodeFromReplies(s: State, file: Option<string>, llm: Collaborator, env: Environment, t: nat, P: string -> bool)
    requires forall k: nat, code: string, log: string :: P(StripFences(llm(k, code, log)))
    ensures var r := RunTester(s, file, llm, env, t);
      r.coderRuns > 0 ==> P(r.state.currentCode) && r.file == Some(r.state.currentCode)
    decreases Budget(s.iterations)
  {
    var tested := TesterNode(env(t), file, s.codeFilename);
    if tested.Success? {
      var s' := Merge(s, tested.value);
      if ShouldContinue(s') == ToCoder {
        var reply := llm(t, PromptCode(file), s'.errorLog);
        var out := CoderNode(s', reply);
        assert P(StripFences(reply));
        StoredCodeFromReplies(Merge(s', out), Some(out.code), llm, env, t + 1, P);
      }
    }
  }

  /** A vanished container does not stop the run: while the routing allows
      it, the run goes on to the coder like after any failed test. */
  lemma VanishedContainerRetries(s: State, file: Option<string>, llm: Collaborator, env: Environment, t: nat)
    requires env(t).Runtime? && !env(t).containerFound
    requires s.iterations <= MaxIterations
    ensures var r := RunTester(s, file, llm, env, t);
      r.coderRuns >= 1 && |r.trace| >= 2 && r.trace[0] == TesterVisit && r.trace[1] == CoderVisit
  {
    var s' := Merge(s, TesterOutput(Failed, ContainerDied));
    RunCoderShape(s', file, llm, env, t);
  }
}
