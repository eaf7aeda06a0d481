/** How runs on the two orchestration backends compare. */
module BackendLaws {
  import opened Wrappers
  import opened Schemas
  import opened Decision
  import opened LangGraphFlow
  import opened Runs

  /** The cycle reaches the flow, and its guards make the two flows part. */
  ghost predicate CycleParts(cfg: WorkflowConfig, c: Cycle)
    requires c.input.Valid()
  {
    !(Gated(cfg, c) && !Clean(cfg, c)) && Parts(cfg, c.env, c.mode, c.input, c.graph, c.retrieved)
  }

  /** No cycle meets a condition under which the flows part. */
  ghost predicate NeverParts(cfg: WorkflowConfig, cycles: seq<Cycle>)
    requires ValidRun(cycles)
  {
    forall i :: 0 <= i < |cycles| ==> !CycleParts(cfg, cycles[i])
  }

  predicate SameStep(d: Step, l: Step) {
    && d.state == l.state
    && d.calls == l.calls
    && match (d.result, l.result)
       case (Success(r), Success(r')) => SameDecision(r, r')
       case (Failure(e), Failure(e')) => e == e'
       case _ => false
  }

  lemma FinishSame(cfg: WorkflowConfig, state: RunState, d: Attempt, l: Attempt)
    requires Agree(d, l)
    ensures SameStep(Finish(cfg, state, d), Finish(cfg, state, l))
  {
  }

  lemma FinishApart(cfg: WorkflowConfig, state: RunState, d: Attempt, l: Attempt)
    requires Apart(d, l)
    ensures !SameStep(Finish(cfg, state, d), Finish(cfg, state, l))
  {
  }

  lemma AnnotatedAgree(d: Attempt, l: Attempt)
    ensures Agree(d, l) ==> Agree(Annotated(d), Annotated(l))
    ensures Apart(d, l) ==> Apart(Annotated(d), Annotated(l))
  {
  }

  lemma FinishSameIff(cfg: WorkflowConfig, state: RunState, d: Attempt, l: Attempt, apart: bool)
    requires if apart then Apart(d, l) else Agree(d, l)
    ensures SameStep(Finish(cfg, state, d), Finish(cfg, state, l)) <==> !apart
    ensures SameStep(Finish(cfg, state, Annotated(d)), Finish(cfg, state, Annotated(l))) <==> !apart
  {
    AnnotatedAgree(d, l);
    if apart {
      FinishApart(cfg, state, d, l);
      FinishApart(cfg, state, Annotated(d), Annotated(l));
    } else {
      FinishSame(cfg, state, d, l);
      FinishSame(cfg, state, Annotated(d), Annotated(l));
    }
  }

  /** From the same state, one cycle is the same on both backends exactly when
      its guards do not make the flows part. */
  lemma StepsSameIff(cfg: WorkflowConfig, state: RunState, c: Cycle)
    requires c.input.Valid() && Healthy(state)
    ensures SameStep(CycleStep(cfg, Direct, state, c), CycleStep(cfg, LangGraph, state, c)) <==> !CycleParts(cfg, c)
  {
    if !(Gated(cfg, c) && !Clean(cfg, c)) {
      ModesRelate(cfg, c.env, c.mode, c.input, c.graph, c.retrieved);
      var d, l, apart := MainFlow(cfg, Direct, c), MainFlow(cfg, LangGraph, c), CycleParts(cfg, c);
      FinishSameIff(cfg, state, d, l, apart);
      FinishSameIff(cfg, state.(lastKnownGood := Some(c.input.carbonSnapshot)), d, l, apart);
    }
  }

  /** After the same earlier cycles, the two runs take the same step on the next one. */
  ghost predicate NextSame(cfg: WorkflowConfig, before: seq<Cycle>, next: Cycle)
    requires ValidRun(before) && next.input.Valid()
  {
    SameStep(CycleStep(cfg, Direct, StateAfter(cfg, Direct, before), next),
             CycleStep(cfg, LangGraph, StateAfter(cfg, LangGraph, before), next))
  }

  /** Cycle by cycle, the two runs are in the same states and decide the same. */
  ghost predicate RunsAlike(cfg: WorkflowConfig, cycles: seq<Cycle>)
    requires ValidRun(cycles)
  {
    forall i :: 0 <= i < |cycles| ==> NextSame(cfg, cycles[..i], cycles[i])
  }

  lemma RunsAlikeSplits(cfg: WorkflowConfig, front: seq<Cycle>, last: Cycle)
    requires ValidRun(front) && last.input.Valid()
    ensures ValidRun(front + [last])
    ensures RunsAlike(cfg, front + [last]) <==> RunsAlike(cfg, front) && NextSame(cfg, front, last)
  {
    var cycles := front + [last];
    assert cycles[..|front|] == front && cycles[|front|] == last;
    assert forall i :: 0 <= i < |front| ==> cycles[i] == front[i] && cycles[..i] == front[..i];
  }

  lemma NeverPartsSplits(cfg: WorkflowConfig, front: seq<Cycle>, last: Cycle)
    requires ValidRun(front) && last.input.Valid()
    ensures ValidRun(front + [last])
    ensures NeverParts(cfg, front + [last]) <==> NeverParts(cfg, front) && !CycleParts(cfg, last)
  {
    var cycles := front + [last];
    assert cycles[|front|] == last && forall i :: 0 <= i < |front| ==> cycles[i] == front[i];
    if NeverParts(cfg, cycles) {
      assert forall i :: 0 <= i < |front| ==> !CycleParts(cfg, cycles[i]);
    }
  }

  lemma NextSameIff(cfg: WorkflowConfig, before: seq<Cycle>, next: Cycle)
    requires ValidRun(before) && next.input.Valid()
    requires StateAfter(cfg, Direct, before) == StateAfter(cfg, LangGraph, before)
    ensures NextSame(cfg, before, next) <==> !CycleParts(cfg, next)
  {
    StepsSameIff(cfg, StateAfter(cfg, Direct, before), next);
  }

  lemma NextStatesSame(cfg: WorkflowConfig, before: seq<Cycle>, next: Cycle)
    requires ValidRun(before) && next.input.Valid() && NextSame(cfg, before, next)
    ensures ValidRun(before + [next])
    ensures StateAfter(cfg, Direct, before + [next]) == StateAfter(cfg, LangGraph, before + [next])
  {
    StateAfterNext(cfg, Direct, before, next);
    StateAfterNext(cfg, LangGraph, before, next);
  }

  /** Two runs over the same cycles, one per backend, go through the same states
      and take the same decisions if and only if no cycle's guards make the
      flows part. */
  lemma {:induction false} BackendsRunAlikeIff(cfg: WorkflowConfig, cycles: seq<Cycle>)
    requires ValidRun(cycles)
    ensures RunsAlike(cfg, cycles) <==> NeverParts(cfg, cycles)
    ensures NeverParts(cfg, cycles) ==> StateAfter(cfg, Direct, cycles) == StateAfter(cfg, LangGraph, cycles)
  {
    if cycles != [] {
      var front, last := cycles[..|cycles| - 1], cycles[|cycles| - 1];
      assert cycles == front + [last];
      BackendsRunAlikeIff(cfg, front);
      OneMoreAlike(cfg, front, last);
    }
  }

  lemma OneMoreAlike(cfg: WorkflowConfig, front: seq<Cycle>, last: Cycle)
    requires ValidRun(front) && last.input.Valid()
    requires RunsAlike(cfg, front) <==> NeverParts(cfg, front)
    requires NeverParts(cfg, front) ==> StateAfter(cfg, Direct, front) == StateAfter(cfg, LangGraph, front)
    ensures ValidRun(front + [last])
    ensures RunsAlike(cfg, front + [last]) <==> NeverParts(cfg, front + [last])
    ensures NeverParts(cfg, front + [last]) ==>
              StateAfter(cfg, Direct, front + [last]) == StateAfter(cfg, LangGraph, front + [last])
  {
    RunsAlikeSplits(cfg, front, last);
    NeverPartsSplits(cfg, front, last);
    if NeverParts(cfg, front) {
      NextSameIff(cfg, front, last);
      if !CycleParts(cfg, last) {
        NextStatesSame(cfg, front, last);
      }
    }
  }
}
