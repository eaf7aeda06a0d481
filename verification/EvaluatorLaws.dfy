/** When a cycle asks the evaluator. */
module EvaluatorLaws {
  import opened Wrappers
  import opened Schemas
  import opened Trust
  import opened DataRails
  import opened Decision
  import opened LangGraphFlow
  import opened Runs

  /** The call asks about the agent's proposal of this cycle, and every hard rail
      of that proposal passed, the two data rails among them. */
  ghost predicate WellAsked(cfg: WorkflowConfig, c: Cycle, call: EvaluatorCall)
    requires c.input.Valid()
  {
    var documents := NonBlank(c.retrieved);
    var reply := AskAgent(cfg, c.env, c.input, c.graph, documents);
    && reply.Proposed?
    && call == EvaluatorCall(c.input, reply.proposal, documents, c.graph)
    && AllPassed(HardRails(cfg, c.env, c.input, reply.proposal, ProposalRails(c.input, c.graph, reply.proposal)))
  }

  /** The evaluator is asked at most once, before anything is executed, and well. */
  ghost predicate AskedOnce(cfg: WorkflowConfig, c: Cycle, calls: seq<Call>)
    requires c.input.Valid()
  {
    forall i :: 0 <= i < |calls| && calls[i].Evaluate? ==> i == 0 && WellAsked(cfg, c, calls[i].evaluation)
  }

  predicate NeverAsks(calls: seq<Call>) {
    forall i :: 0 <= i < |calls| ==> calls[i].Execute?
  }

  lemma AskedThenExecuted(cfg: WorkflowConfig, c: Cycle, asked: seq<Call>, made: seq<Call>)
    requires c.input.Valid() && AskedOnce(cfg, c, asked) && NeverAsks(made)
    ensures AskedOnce(cfg, c, asked + made)
  {
  }

  /** The gate asks once at most, and only when every hard rail passed; a report
      that passes was asked about. */
  lemma GateAsksWell(cfg: WorkflowConfig, c: Cycle, proposal: ActionProposal)
    requires c.input.Valid() && cfg.gate.profile.IsV2Family()
    requires AskAgent(cfg, c.env, c.input, c.graph, NonBlank(c.retrieved)) == Proposed(proposal)
    ensures var (report, asked) := Gate(cfg, c.env, c.input, proposal, ProposalRails(c.input, c.graph, proposal),
                                        NonBlank(c.retrieved), c.graph);
            && AskedOnce(cfg, c, asked)
            && report.Success? && (report.value.passed ==> asked != [])
  {
  }

  lemma ActingNeverAsks(cfg: WorkflowConfig, env: Environment, input: DecisionInput, proposal: ActionProposal,
                        report: TrustReport)
    ensures NeverAsks(ActOn(cfg, env, input, proposal, report).1)
  {
  }

  lemma MilpNeverAsks(cfg: WorkflowConfig, env: Environment, input: DecisionInput, fallback: bool,
                      report: Option<TrustReport>)
    ensures NeverAsks(RunMilp(cfg, env, input, fallback, report).1)
  {
  }

  lemma ConcludingNeverAsks(cfg: WorkflowConfig, env: Environment, s: NodeState, agent: Option<ActionProposal>,
                            asked: seq<Call>)
    ensures var calls := Conclude(cfg, env, s, agent, asked).calls;
            asked <= calls && NeverAsks(calls[|asked|..])
  {
  }

  lemma DirectAsksWell(cfg: WorkflowConfig, c: Cycle)
    requires c.input.Valid() && Gated(cfg, c)
    ensures AskedOnce(cfg, c, DirectFlow(cfg, c.env, c.mode, c.input, c.graph, c.retrieved).calls)
  {
    var documents := NonBlank(c.retrieved);
    match AskAgent(cfg, c.env, c.input, c.graph, documents)
    case AgentFailed => MilpNeverAsks(cfg, c.env, c.input, true, Some(FailedReport(cfg)));
    case Proposed(proposal) =>
      GateAsksWell(cfg, c, proposal);
      var rails := ProposalRails(c.input, c.graph, proposal);
      var (gated, asked) := Gate(cfg, c.env, c.input, proposal, rails, documents, c.graph);
      ActingNeverAsks(cfg, c.env, c.input, proposal, gated.value);
      AskedThenExecuted(cfg, c, asked, ActOn(cfg, c.env, c.input, proposal, gated.value).1);
  }

  lemma ConcludeAsksWell(cfg: WorkflowConfig, c: Cycle, s: NodeState, agent: Option<ActionProposal>, asked: seq<Call>)
    requires c.input.Valid() && AskedOnce(cfg, c, asked)
    ensures AskedOnce(cfg, c, Conclude(cfg, c.env, s, agent, asked).calls)
  {
    ConcludingNeverAsks(cfg, c.env, s, agent, asked);
    var calls := Conclude(cfg, c.env, s, agent, asked).calls;
    AskedThenExecuted(cfg, c, asked, calls[|asked|..]);
    assert asked + calls[|asked|..] == calls;
  }

  lemma NodesAskWell(cfg: WorkflowConfig, c: Cycle)
    requires c.input.Valid() && Gated(cfg, c)
    ensures AskedOnce(cfg, c, LangGraphRun(cfg, c.env, c.mode, c.input, c.graph, c.retrieved).calls)
  {
    var s := ProposeAction(cfg, c.env, CollectContext(Initial(c.mode, c.input, c.graph, c.retrieved)));
    if s.proposal.Some? {
      GateAsksWell(cfg, c, s.proposal.value);
    }
    var (evaluated, asked) := EvaluateTrustNode(cfg, c.env, s);
    ConcludeAsksWell(cfg, c, evaluated.value, s.proposal, asked);
  }

  /** Under the v2 family, on either backend and from any state, a hybrid cycle
      asks the evaluator at most once, before it executes anything, and only
      about a proposal of its own agent whose hard rails all passed. */
  lemma EvaluatorAskedOnlyAfterRails(cfg: WorkflowConfig, via: Orchestration, state: RunState, c: Cycle)
    requires c.input.Valid() && Healthy(state) && Gated(cfg, c)
    ensures AskedOnce(cfg, c, CycleStep(cfg, via, state, c).calls)
    ensures !Clean(cfg, c) ==> NeverAsks(CycleStep(cfg, via, state, c).calls)
  {
    if Clean(cfg, c) {
      if via == Direct {
        DirectAsksWell(cfg, c);
      } else {
        NodesAskWell(cfg, c);
      }
    }
  }
}
