/**
 * The shared state the repair graph threads through its nodes (the
 * `AgentState` typed dictionary) and the way a node's partial result is
 * merged into it: each key a node returns overwrites that key, every other
 * key is kept.
 */
module AgentState {

  /** One snapshot of the state dictionary. */
  datatype State = State(
    codeFilename: string,
    errorLog: string,
    currentCode: string,
    iterations: int,
    status: string)

  /** The partial dictionary a node returns: the coder returns
      `current_code` and `iterations`, the tester `status` and `error_log`. */
  datatype NodeOutput =
    | CoderOutput(code: string, count: int)
    | TesterOutput(verdict: string, log: string)

  const Fixed: string := "fixed"
  const Failed: string := "failed"
  const Start: string := "start"

  /** The state every caller starts the graph with: no error, no code,
      zero iterations, status "start". */
  function Initial(filename: string): (s: State)
    ensures s.codeFilename == filename && s.iterations == 0
    ensures s.errorLog == [] && s.currentCode == [] && s.status == Start
  {
    State(filename, "", "", 0, Start)
  }

  /** Key-by-key overwrite of `s` by the node output `out`. */
  function Merge(s: State, out: NodeOutput): (r: State)
    ensures r.codeFilename == s.codeFilename
    ensures out.CoderOutput? ==>
      r.currentCode == out.code && r.iterations == out.count &&
      r.status == s.status && r.errorLog == s.errorLog
    ensures out.TesterOutput? ==>
      r.status == out.verdict && r.errorLog == out.log &&
      r.currentCode == s.currentCode && r.iterations == s.iterations
  {
    match out
    case CoderOutput(code, count) => s.(currentCode := code, iterations := count)
    case TesterOutput(verdict, log) => s.(status := verdict, errorLog := log)
  }
}
