/** The same instance on the orchestrator itself: started, run by a process that does not die, and released. */
module ReleasedSession {
  import opened Values
  import opened Frames
  import opened Dsl
  import opened StateMachine
  import opened Protocol
  import opened StepRows
  import opened Collisions
  import opened Orchestrator
  import opened Lifecycle
  import opened Sessions
  import opened ReleasedRun
  import Release
  import Assessment

  lemma ReleaseSettled(before: Durable, after: Durable, a: Assessment.Assessment, r: ReleaseResult)
    requires before.state == VERIFYING && Settles(before, after, a, r) && a.decision.decision == Release.RELEASE
    ensures after.state == RELEASED
  {
  }

  ghost predicate AlwaysReleasable(b: Assessment.Brief, d: Durable) {
    forall rows :: Lists(rows, d.records) ==> Release.Releasable(Assessment.CaseOf(b, d, rows))
  }

  lemma AlwaysDecided(b: Assessment.Brief, d: Durable, a: Assessment.Assessment)
    requires AlwaysReleasable(b, d) && AssessedAs(b, d, a)
    ensures a.decision.decision == Release.RELEASE
  {
    var rows :| Assessment.Assesses(b, d, rows, a);
  }

  /** When every listing of the records makes the case releasable, `release` does release. */
  lemma ReleasableMustRelease(b: Assessment.Brief, before: Durable, after: Durable, r: ReleaseResult)
    requires ExecutionOrder(b.w).Ok? && Assessment.Readable(b, before.files) && before.state == VERIFYING
    requires AlwaysReleasable(b, before) && ReleaseFollows(b, before, after, r)
    ensures after.state == RELEASED
  {
    ReadableIsJudged(b, before, after, r);
    AlwaysDecided(b, before, r.assessment);
    ReleaseSettled(before, after, r.assessment, r);
  }

  lemma InstanceMustBeReleased(name: string, id: string, after: Durable, r: ReleaseResult)
    requires Apart(name, id) && ReleaseFollows(BriefOf(name, id), Finished(name, id), after, r)
    ensures after.state == RELEASED
  {
    OneStepJobIsValid(name, id, Succeeds());
    InstanceIsReadable(name, id);
    forall rows | Lists(rows, Finished(name, id).records)
      ensures Release.Releasable(Assessment.CaseOf(BriefOf(name, id), Finished(name, id), rows))
    {
      InstanceIsReleasable(name, id, rows);
    }
    ReleasableMustRelease(BriefOf(name, id), Finished(name, id), after, r);
  }

  lemma InstanceDrives(name: string, id: string)
    requires Apart(name, id)
    ensures var j := Instance(name, id);
      && Drives(j, j.engine, "run", j.w) && Supplies(j, map[name := Rows(0)], map[name := "v1"])
      && NewRun(j.w, map[name := "v1"]).snapshots == map[name := "v1"]
  {
    OneStepIsOk(name, id, Succeeds());
    JobDrives(Instance(name, id));
  }

  method StartInstance(o: WorkflowOrchestrator, name: string, id: string) returns (ghost x: Setting, ghost h: seq<Life>)
    requires Apart(name, id) && o.engine == Instance(name, id).engine && o.gated == {}
      && o.checks == BriefOf(name, id).checks
    requires o.store.runs == map[] && o.store.Records("run") == map[] && o.artifacts.Files("run") == map[]
    modifies o.store, o.artifacts
    ensures Lives(o, x, "run", h) && x.j == Instance(name, id)
      && BriefOn(x, BriefOf(name, id).contract) == BriefOf(name, id)
    ensures o.store.runs["run"].state == RUNNING
  {
    var j := Instance(name, id);
    InstanceDrives(name, id);
    InstanceIsStartable(name, id);
    var begun;
    begun, x, h := StartOnce(o, j.w, map[name := Rows(0)], map[name := "v1"], false, None, {}, "run", j);
  }

  method FinishInstance(o: WorkflowOrchestrator, name: string, id: string, ghost x: Setting, ghost h: seq<Life>)
    returns (ghost h': seq<Life>)
    requires Apart(name, id) && Lives(o, x, "run", h) && x.j == Instance(name, id)
    requires o.store.runs["run"].state == RUNNING
    modifies o.store, o.artifacts
    ensures Lives(o, x, "run", h') && o.At("run") == Finished(name, id)
  {
    OneStepIsOk(name, id, Succeeds());
    InstanceFinishes(name, id);
    var ran;
    ran, h' := Finish(o, "run", Instance(name, id).w, 4, x, h);
  }

  method JudgeInstance(o: WorkflowOrchestrator, name: string, id: string, ghost x: Setting, ghost h: seq<Life>)
    requires Apart(name, id) && Lives(o, x, "run", h) && x.j == Instance(name, id)
      && BriefOn(x, BriefOf(name, id).contract) == BriefOf(name, id)
    requires o.At("run") == Finished(name, id)
    modifies o.store, o.artifacts
    ensures "run" in o.store.runs && o.At("run").state == RELEASED
  {
    OneStepJobIsValid(name, id, Succeeds());
    var released;
    ghost var h';
    released, h' := ReleaseOnce(o, "run", Instance(name, id).w, BriefOf(name, id).contract, x, h);
    InstanceMustBeReleased(name, id, o.At("run"), released);
  }

  /** An orchestrator with empty stores takes the instance all the way to RELEASED. */
  method ReleaseOneStep(o: WorkflowOrchestrator, name: string, id: string)
    requires Apart(name, id) && o.engine == Instance(name, id).engine && o.gated == {}
      && o.checks == BriefOf(name, id).checks
    requires o.store.runs == map[] && o.store.Records("run") == map[] && o.artifacts.Files("run") == map[]
    modifies o.store, o.artifacts
    ensures "run" in o.store.runs && o.At("run").state == RELEASED
  {
    ghost var x, h := StartInstance(o, name, id);
    h := FinishInstance(o, name, id, x, h);
    JudgeInstance(o, name, id, x, h);
  }
}
