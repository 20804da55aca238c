/** An instance: a run whose one step is rejected. It ends QUARANTINED, and releasing it raises an untyped error. */
module QuarantinedRun {
  import opened Values
  import opened Frames
  import opened Dsl
  import opened Denotation
  import opened StateMachine
  import opened Protocol
  import opened Collisions
  import opened Orchestrator
  import opened Lifecycle
  import opened ReleasedRun
  import Assessment

  lemma RejectedStops(name: string, id: string, e: PlatformError)
    requires Apart(name, id)
    ensures var j := OneStepJob(name, id, Rejected(e)); Complete(j, Call(Start(j))).d.state == QUARANTINED
  {
    var j := OneStepJob(name, id, Rejected(e));
    OneStepSeeded(name, id, Rejected(e));
    OneStepRejected(j, j.steps[0], Start(j).d, Rows(0), e);
  }

  /** For any source, any step with a file of its own and any typed error there is a run that ends QUARANTINED, and on
      it `release`, whatever it is asked to judge by, raises and never returns a verdict. */
  lemma SomeRunIsNeverJudged(name: string, id: string, e: PlatformError, b: Assessment.Brief, after: Durable,
                             r: ReleaseResult)
    returns (tr: seq<Config>)
    requires Apart(name, id) && b.w == OneStepJob(name, id, Rejected(e)).w
    ensures JobOk(OneStepJob(name, id, Rejected(e))) && IsTrace(OneStepJob(name, id, Rejected(e)), tr)
    ensures tr[|tr| - 1].d.state == QUARANTINED
    ensures ReleaseFollows(b, tr[|tr| - 1].d, after, r) <==> r == Lost && after == tr[|tr| - 1].d
  {
    var j := OneStepJob(name, id, Rejected(e));
    OneStepIsOk(name, id, Rejected(e));
    tr := CallTrace(j);
    RejectedStops(name, id, e);
    ReleaseOfStoppedRun(j, tr, |tr| - 1, b, after, r);
  }
}
