/** What the workflow makes of a Kubernetes session. */
module SessionLaws {
  import opened Wrappers
  import opened Schemas
  import opened Decision
  import opened LangGraphFlow
  import opened Runs
  import opened RunLaws
  import opened Session

  /** The receipt the Kubernetes executor returns for a call. */
  function ReceiptOf(call: ExecutorCall, session: SessionReceipt): ExecutionReceipt {
    ExecutionReceipt(call.runId, call.cycleId, call.mode, call.action, call.fallbackTriggered, session.p95LatencyMs,
                     session.errorRate, None, session.failureReason, None, None, false, None, None)
  }

  /** On either backend, a cycle that ran a session is recorded as executed exactly
      when the session's failure reason is absent or empty, and then the last
      placement moves to the action's region. */
  lemma ExecutedIffReasonEmpty(cfg: WorkflowConfig, via: Orchestration, state: RunState, c: Cycle, step: Step,
                               call: ExecutorCall, session: SessionReceipt)
    requires c.input.Valid() && Healthy(state)
    requires step == CycleStep(cfg, via, state, c) && ExecutorCalls(step.calls) == [call]
    requires c.env.execute(call) == Returned(ReceiptOf(call, session))
    ensures step.result.Success?
    ensures step.result.value.outcome == Executed
            <==> session.failureReason == None || session.failureReason == Some("")
    ensures step.result.value.outcome == Executed ==> step.state.lastPlacement == Some(call.action.targetRegion)
  {
    ExecutorCalledIffReached(cfg, via, state, c);
    StepEffects(cfg, via, state, c);
    ExecutedMeans(ReceiptOf(call, session));
  }

  lemma ExecutedMeans(receipt: ExecutionReceipt)
    ensures OutcomeOf(receipt) == Executed
            <==> receipt.executionFailureReason == None || receipt.executionFailureReason == Some("")
  {
  }

  /** In some run, a cycle made this call, the session answered it, and the cycle
      was recorded as executed. */
  ghost predicate RecordedAsExecuted(cfg: WorkflowConfig, via: Orchestration, state: RunState, c: Cycle,
                                     call: ExecutorCall, session: SessionReceipt)
  {
    && AnsweredBy(cfg, via, state, c, call, session)
    && CycleStep(cfg, via, state, c).result.Success?
    && CycleStep(cfg, via, state, c).result.value.outcome == Executed
  }

  ghost predicate AnsweredBy(cfg: WorkflowConfig, via: Orchestration, state: RunState, c: Cycle, call: ExecutorCall,
                             session: SessionReceipt)
  {
    && c.input.Valid() && Healthy(state)
    && ExecutorCalls(CycleStep(cfg, via, state, c).calls) == [call]
    && c.env.execute(call) == Returned(ReceiptOf(call, session))
  }

  /** The exact condition: a cycle that ran a session is recorded as executed if and
      only if the session completed, or the exception that ended it has an empty
      text. When no such text is empty, that is: if and only if it completed. */
  lemma ExecutedIffCompleteOrSilent(executor: KubernetesBenchmarkExecutor, world: nat -> Exchange, from: nat, upTo: nat,
                                    foreign: set<string>, cause: Cause, session: SessionReceipt,
                                    cfg: WorkflowConfig, via: Orchestration, state: RunState, c: Cycle,
                                    call: ExecutorCall)
    requires executor.SessionEnded(world, from, upTo, foreign, cause, session.failureReason)
    requires AnsweredBy(cfg, via, state, c, call, session)
    ensures RecordedAsExecuted(cfg, via, state, c, call, session)
            <==> cause.Completed? || executor.EndingText(world, cause) == Some("")
    ensures executor.Outspoken(world, from, upTo, foreign) ==>
              (RecordedAsExecuted(cfg, via, state, c, call, session) <==> cause.Completed?)
  {
    ExecutedIffReasonEmpty(cfg, via, state, c, CycleStep(cfg, via, state, c), call, session);
    executor.ReasonIsEmptyIff(world, from, upTo, foreign, cause, session.failureReason);
  }

  /** Run a session among outspoken exceptions: whatever cycle it answers, on either
      backend, a record of it as executed means that the session is complete and
      that its figures are measured from its own logs. */
  method OutspokenSession(executor: KubernetesBenchmarkExecutor, cluster: Cluster, cycleId: string,
                          scheduled: Option<int>, clientsError: Option<string>, resetRenderError: Option<string>,
                          benchmarkRenderError: Option<string>)
    returns (r: Result<SessionReceipt, string>)
    requires cluster.Valid() && executor.Configured()
    requires var foreign := executor.ForeignTexts(clientsError, resetRenderError, benchmarkRenderError);
             forall upTo :: executor.Outspoken(cluster.world, cluster.tick, upTo, foreign)
    modifies cluster, executor`files
    ensures cluster.Valid() && r.Success?
    ensures forall cfg, via, state, c, call | RecordedAsExecuted(cfg, via, state, c, call, r.value) ::
              && executor.SessionComplete(cluster, cycleId)
              && exists logs ::
                   && executor.MeasuredFrom(r.value, logs)
                   && executor.Collected(cluster.world, old(cluster.tick), cluster.seenAt, cluster.tick, logs)
  {
    ghost var from := cluster.tick;
    ghost var foreign := executor.ForeignTexts(clientsError, resetRenderError, benchmarkRenderError);
    ghost var cause;
    r, cause := executor.Execute(cluster, true, cycleId, scheduled, clientsError, resetRenderError,
                                 benchmarkRenderError);
    assert executor.Outspoken(cluster.world, from, cluster.tick, foreign);
    executor.ReasonIsEmptyIff(cluster.world, from, cluster.tick, foreign, cause, r.value.failureReason);
    forall cfg, via, state, c, call | RecordedAsExecuted(cfg, via, state, c, call, r.value)
      ensures r.value.failureReason == None
    {
      ExecutedIffReasonEmpty(cfg, via, state, c, CycleStep(cfg, via, state, c), call, r.value);
    }
  }

  /** The world of a session whose reset Job succeeds at once and whose listing of
      the reset pods is then lost three times without an error text. */
  function SilentLoss(reset: string, t: nat): Exchange {
    Exchange(if 4 <= t < 7 then RequestLost("") else Delivered, if t == 3 then map[reset := JobSucceeded] else map[],
             Some(true), [], "", 0)
  }

  lemma ListingIsLost(executor: KubernetesBenchmarkExecutor, world: nat -> Exchange, reset: string)
    requires forall t :: world(t) == SilentLoss(reset, t)
    ensures executor.ListingLost(world, 0, reset) && world(4).transport.message == ""
  {
  }

  /** Such a session ends with an empty failure reason and never creates the
      benchmark Job: with `ExecutedIffReasonEmpty`, it is recorded as executed. */
  method UnfinishedSessionLooksExecuted(executor: KubernetesBenchmarkExecutor, cycleId: string, scheduled: Option<int>,
                                        now: int)
    returns (cluster: Cluster, r: Result<SessionReceipt, string>)
    requires executor.Configured()
    modifies executor`files
    ensures fresh(cluster)
    ensures r.Success? && r.value.failureReason == Some("")
    ensures cluster.events == JobEvents(executor.JobName("reset", cycleId), true)
    ensures Created(executor.JobName("benchmark", cycleId)) !in cluster.events
  {
    var reset := executor.JobName("reset", cycleId);
    var world := (t: nat) => SilentLoss(reset, t);
    ListingIsLost(executor, world, reset);
    cluster := new Cluster(world, map[], now);
    executor.JobNamesDiffer(cycleId);
    ghost var cause;
    r, cause := executor.Execute(cluster, true, cycleId, scheduled, None, None, None);
  }
}
