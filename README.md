# gitfix repair loop, modelled in Dafny

gitfix repairs a broken Python file with two nodes in a LangGraph state graph.

- **`tester`** runs the file's tests. It uses pytest in a Docker sandbox container when a container runtime answers. Otherwise it uses a simulated oracle: a chain of substring rules over the file's text and name.
- **`coder`** sends the file's text and the last error log to a language model. It strips Markdown code fences from the reply and overwrites the file with the result. It also counts one more iteration.

The graph enters at `tester` and `coder` always hands back to `tester`. After each test, `should_continue` ends the run when the status is `"fixed"` or when more than five iterations have been counted. Otherwise it sends the run back to `coder`.

The project models this loop (`agent/graph.py`) and the initial state that both callers give it (`app.py`, `main.py`).

- `wrappers.dfy`: `Option` and `Result`.
- `text.dfy` (module `Text`): Python's `in` on strings, `str.replace` and `str.strip()`.
  - `replace` replaces every non-overlapping occurrence, scanning left to right.
  - `strip()` removes characters in the `str.isspace` set.
- `agent_state.dfy` (module `AgentState`):
  - the `AgentState` dictionary, with the three status strings;
  - the partial dictionaries the nodes return;
  - the key-by-key overwrite that merges a node's partial dictionary into the state.
- `coder.dfy` (module `Coder`):
  - the coder's post-processing `reply.replace("```python", "").replace("```", "").strip()`;
  - the `"# File not found"` placeholder;
  - the coder's partial result.
  - The language model is a function `Collaborator` from (call number, code shown, error log) to reply.
- `oracle.dfy` (module `Oracle`): the simulated pytest, its five rules tried in order.
- `tester.dfy` (module `Tester`): `tester_node`.
  - Each call probes for a container runtime afresh. The answer to one call is a `Probe`: no runtime, or a runtime together with whether the sandbox container was found, pytest's exit code and its decoded output.
  - A missing target file in the simulated branch raises `FileNotFoundError`, which nothing in the node catches.
- `graph.dfy` (module `Graph`):
  - `should_continue`;
  - the whole run as a pure function of the initial state, the file on disk, the collaborator and the environment (the probe answer per tester call);
  - the properties of runs.
- `repair.dfy` (module `Repair`):
  - a `Session` class whose fields are the state's keys plus the file on disk;
  - the two nodes as methods that update those fields in place;
  - a `while` loop `Run` that follows the graph's edges. It is proved to end exactly as the pure run does.
- `scenarios.dfy` (module `Scenarios`): concrete runs.
  - The demo adder `main.py` writes, with `return a - b`.
  - The two pytest fixtures.

Behaviour of the code that the model keeps as written:

- **Docker probe:** it is made on every tester call, not once per session.
- **Vanished container:** a missing sandbox container is an ordinary test failure (`"Container died unexpectedly."`) that sends the run to the coder again. It does not halt the run.
- **File write:** the file is overwritten in place, not written then renamed.
- **Final status:** an exhausted run ends with status `"failed"`; there is no separate "exhausted" status.
- **Missing file:** in the model, the only way a run stops abnormally is the simulated tester's uncaught `FileNotFoundError`. `Repair.Session.Run` reports it as `Raised`. Exceptions from the Docker SDK would also escape the tester; they are outside the model (see "Left out").
- **Oracle closed form:** the rules are tried in order and the first match decides. The `"return a + b"` rule comes before the reversal-task rule, so a file fails exactly when its text contains `"return a - b"`, or when it contains `"return text"` but not `"return a + b"` and the file name contains `"reverse"` (`Oracle.Simulate`).
- **Passthrough rule also catches correct code:** `"return text"` is a prefix of the correct `return text[::-1]`. So a correct reversal in a file whose name contains `"reverse"` fails: `Oracle.ReversedReturnStillFails`, `Scenarios.CorrectReversalFailsUnderReverseName`. The repository's own fixture `2.stringerror.py` passes only because its name does not contain `"reverse"`.
- **Empty error log on failure:** a pytest run in a container that exits non-zero with empty output records an empty `error_log`. So a run where every test fails ends with a non-empty error log only when the last test's output is non-empty (`Tester.Silent`).

The routing's `iterations > 5` allows six coder runs, not five. `Graph.EveryTestFails` proves that every test of a run fails exactly when the run ends "failed", and that such a run from the initial state ends after exactly six coder runs.

## Model

| member | source | states |
|---|---|---|
| `AgentState.Initial` | app.py:158-164 | the state both callers start with: given file name, empty error log and code, zero iterations, status "start" |
| `AgentState.Merge` | agent/graph.py:14-19 | a node's partial dictionary overwrites exactly its own keys; every other key of the state is kept |
| `Text.ContainsAtSomeIndex` | agent/graph.py:99-110 | Python's `sub in s`, as used by every oracle rule, holds exactly when the window of `s` at some index starts with `sub` |
| `Text.ReplaceAll` | agent/graph.py:56 | `str.replace`: a pattern that does not occur leaves the text unchanged |
| `Text.Strip` | agent/graph.py:56 | `str.strip()`: the result has no whitespace at either end, is a contiguous window of the input, and everything outside the window is whitespace |
| `Text.StripTrimmed` | agent/graph.py:56 | stripping a text without whitespace at its ends returns it unchanged |
| `Text.StripKeepsAbsence` | agent/graph.py:56 | stripping never creates an occurrence of a pattern |
| `Text.ReplaceSkipsPrefix` | agent/graph.py:56 | `str.replace` leaves untouched a leading part in which the pattern's first character does not occur |
| `Coder.PromptCode` | agent/graph.py:33-37 | the coder shows the file's contents, or "# File not found" when the file does not exist |
| `Coder.DeleteFencesLeavesNone` | agent/graph.py:56 | after `.replace("```", "")` no "```" remains anywhere, even where deleting one fence joins the backticks around it |
| `Coder.StripFences` | agent/graph.py:56 | the stored code never contains "```" and never starts or ends with whitespace |
| `Coder.StripFencesIdempotent` | agent/graph.py:56 | post-processing an already post-processed reply changes nothing |
| `Coder.FencedRoundTrip` | agent/graph.py:56 | code without backticks and without whitespace at its ends, wrapped in a "```python" fence, comes back exactly |
| `Coder.PlainReplyKept` | agent/graph.py:56 | a reply without backticks and without whitespace at its ends is stored verbatim |
| `Coder.CoderNode` | agent/graph.py:56-61 | the coder's partial result: the stripped reply (fence-free, trimmed) and iterations plus one |
| `Coder.CoderStep` | agent/graph.py:23-61 | one coder step raises iterations by exactly one, stores the stripped reply as current code, and keeps status, error log and file name |
| `Oracle.Simulate` | agent/graph.py:99-117 | the rule chain fails exactly on "return a - b", or on "return text" without "return a + b" in a file whose name contains "reverse"; every failure has non-empty output; no matching rule gives "Simulation: Fix Verified." |
| `Oracle.SubtractionWins` | agent/graph.py:99-104 | "return a - b" gives the subtraction failure whatever else the text holds, "return a + b" included |
| `Oracle.AdditionMasksPassthrough` | agent/graph.py:102-109 | without "return a - b", "return a + b" passes even when the reversal-task rule would fail |
| `Oracle.OnlySubtractionFailsElsewhere` | agent/graph.py:99-117 | under a name without "reverse", the file fails exactly when it contains "return a - b" |
| `Oracle.ReversedReturnStillFails` | agent/graph.py:107-112 | in a file named for a reversal task, the correct `return text[::-1]` (without the adder patterns) fails with the passthrough message |
| `Tester.Report` | agent/graph.py:119-123 | a pass gives status "fixed" and an empty error log; a failure gives "failed" and the output as error log |
| `Tester.TesterNode` | agent/graph.py:63-123 | a vanished container is an ordinary failure; in a container the exit code alone decides the verdict; without a runtime the oracle decides; only a missing file in the simulated branch raises; a failure's error log is non-empty unless the container run printed nothing |
| `Graph.ShouldContinue` | agent/graph.py:132-135 | the routing ends exactly when the status is "fixed" or iterations exceed five, and otherwise goes to the coder |
| `Graph.Alternation` | agent/graph.py:130-138 | the visit order for n coder runs has 2n+1 nodes, tester at every even position and coder at every odd one |
| `Graph.RunTester` | agent/graph.py:126-140 | the compiled graph's run from the tester node: the tester is visited first, a run that ends does so where the routing ends it, and a raise stops it before any coder run |
| `Graph.RunCoder` | agent/graph.py:137-138 | the run from the coder node always hands over to the tester and ends by routing, after at least one coder run |
| `Graph.Run` | agent/graph.py:126-140 | the run from the initial state enters at the tester and ends by routing or by a raise |
| `Graph.RunTesterShape` | agent/graph.py:126-140 | from the tester node, every run ends: iterations grow by the number of coder runs, which stays within the routing's budget; nodes alternate; the file holds the last stored code; only the first tester call can raise |
| `Graph.RunCoderShape` | agent/graph.py:126-140 | the same from the coder node, with at least one coder run and a run that always ends by routing |
| `Graph.RunTesterTrace` | agent/graph.py:130-138 | the visited nodes of a run from the tester alternate tester, coder, ..., tester, one coder visit per coder run |
| `Graph.RunCoderTrace` | agent/graph.py:137-138 | a run from the coder visits coder, tester, ... alternating, one coder visit per coder run |
| `Graph.RepairBounds` | agent/graph.py:126-140 | from the initial state, the final iterations equal the coder runs, between 0 and 6; an ended run is "fixed" or "failed" with exactly 6 iterations and a non-empty error log unless the last container run was silent; it raises exactly when the first test, simulated, finds no file |
| `Graph.FirstTestPasses` | agent/graph.py:130-135 | a first test that passes ends the run "fixed", with no coder run, iterations unchanged and the file untouched |
| `Graph.EveryTestFails` | agent/graph.py:126-140 | every test of a run fails exactly when the run ends "failed"; then it ends after all the coder runs the routing allows (6 from the initial state) with 6 iterations, and a non-empty error log unless the last container run was silent |
| `Graph.EveryRepairTestFails` | agent/graph.py:132-138 | the same from the coder node: every later test fails exactly when the run ends "failed", after all the coder runs the routing allows |
| `Graph.FailingRepliesFailEveryTest` | agent/graph.py:56-61 | a collaborator none of whose stripped replies passes makes every test of a run fail once the first test fails |
| `Graph.StoredCodeFromReplies` | agent/graph.py:56-61 | any property every stripped reply has, the final file and current code have, once the coder has run |
| `Graph.VanishedContainerRetries` | agent/graph.py:76-78 | a vanished container does not stop the run: while iterations allow, the coder runs next |
| `Repair.AfterTest` | agent/graph.py:63-123 | after a tester call, the rest of the run is what the graph defines: stop on a raise, end on the routing's end, or go on from the coder |
| `Repair.AfterCode` | agent/graph.py:137 | after a coder call, the rest of the run is the run from the next tester call, one coder run more |
| `Repair.Session.constructor` | main.py:42-48 | a session starts in the initial state over the given file contents |
| `Repair.Session.Code` | agent/graph.py:23-61 | the coder overwrites the file with the stripped reply, stores it as current code, raises iterations by one and keeps status and error log |
| `Repair.Session.Test` | agent/graph.py:63-123 | the tester writes status and error log as the tester node defines, or raises and writes nothing; file, code and iterations are unchanged |
| `Repair.Session.Run` | agent/graph.py:126-140 | the in-place loop ends with the outcome, state, file and coder-run count of the graph's run, and iterations grow by exactly the coder runs |
| `Repair.Repair` | main.py:40-52 | a fresh session run from the initial state ends with at most six coder runs counted by iterations, "fixed" or "failed" after six, and raises exactly when the first simulated test finds no file |
| `Scenarios.AdderVerdicts` | agent/graph.py:99-104 | an adder returning `a + b` passes and one returning `a - b` fails under any file name |
| `Scenarios.FixedInOneRound` | agent/graph.py:126-140 | a subtraction bug repaired by a fenced `return a + b` reply ends "fixed" after one coder run, with the unfenced reply in the file and the visits tester, coder, tester |
| `Scenarios.DemoFixedInOneRound` | main.py:14-24 | the demo file `broken_math.py` is repaired in one round by a collaborator that returns the fixed adder |
| `Scenarios.RepeatedReplyStored` | agent/graph.py:56 | a plain reply repeated on every call is stored verbatim on every call |
| `Scenarios.RepeatedDefectFails` | agent/graph.py:126-140 | a collaborator that keeps returning the subtraction exhausts the loop: "failed", 6 iterations, non-empty error log |
| `Scenarios.RepeatedDefectExhausts` | agent/graph.py:58-59 | the exhausted run leaves the last defective reply in the file |
| `Scenarios.DemoExhausts` | main.py:14-24 | the demo file with a collaborator that never fixes it ends "failed" after 6 iterations |
| `Scenarios.FixturesPass` | 4.logicerror.py:3-5 | both pytest fixtures pass the simulated test under their own names |
| `Scenarios.CorrectReversalFailsUnderReverseName` | 2.stringerror.py:3-5 | the string fixture's correct code fails the simulated test once saved under a name containing "reverse" |

## Left out

- The language model (`ChatOpenAI`, the prompt text, temperature, API endpoint and key) is the collaborator function. Its replies are unconstrained, and service errors it could raise are not modelled.
- The Docker SDK (`docker.from_env`, `ping`, `containers.list`, `exec_run`) is reduced to one `Probe` answer per tester call. The UTF-8 decoding of pytest's output is taken as already done, and a decoding error is not modelled.
- Exceptions from the Docker SDK calls in the tester (`docker.from_env`, `containers.list`, `exec_run`) are not modelled, for example a container removed between listing and `exec_run`. In the source they escape the tester and stop the run, so `Graph.RepairBounds` and `Repair.Repair` say "raises exactly when the first simulated test finds no file" only within the `Probe` abstraction.
- `sandbox/container_mgr.py` is not part of this model beyond its liveness probe. Image build, container start and the CLI's teardown call are not modelled.
- I/O errors other than a missing file are not modelled: unreadable files, failing writes, and a coder write that could not create the file.
- A partially written file is not modelled: `Repair.Session.Code` replaces the file contents in one assignment.
- `time.sleep` and `print` are timing and logging only.
- LangGraph's `StateGraph`, `stream` and `invoke` are replaced by the explicit run and loop. Stream events appear only as the visit trace of `Graph.Final`.
- The Streamlit interface in `app.py` (upload, progress rendering, download, exception display) and environment loading (`load_dotenv`) are presentation and plumbing.
- `Text.IsSpace` is the fixed character set of Python's `str.isspace`, written out as code points rather than taken from Unicode tables.
- The scenarios use the demo file and the fixtures' function headers and return lines. The fixtures' test functions and comments play no part in the simulated verdict.
