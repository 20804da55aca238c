/** Releasing a run that has ended: when it is judged again, and what is found then. */
module Rejudged {
  import opened Values
  import opened Frames
  import opened Dsl
  import opened StateMachine
  import opened Protocol
  import opened StepRows
  import opened Orchestrator
  import opened Lifecycle
  import opened ReleasedRun
  import Contract
  import Verifier
  import Release
  import Assessment

  // ---- One release of a run that has ended ----

  /** It changes nothing, returns an assessment exactly if every artifact it reads is stored, and never decides
      RELEASE. */
  lemma EndedIsRejudged(b: Assessment.Brief, d: Durable, after: Durable, r: ReleaseResult)
    requires d.state in {RELEASED, QUARANTINED, ROLLED_BACK} && ExecutionOrder(b.w).Ok?
      && ReleaseFollows(b, d, after, r)
    ensures after == d
    ensures r.Assessed? <==> Assessment.AllStored(Assessment.Needed(b.w), d.files)
    ensures !r.Assessed? ==> r == Lost
    ensures r.Assessed? ==>
      r.state == d.state && AssessedAs(b, d, r.assessment) && r.assessment.decision.decision == Release.QUARANTINE
  {
    Assessment.ReadableIffStored(b, d.files);
  }

  /** The first release of a run that can be read moves it: to RELEASED if it is VERIFYING and that is the decision, to
      QUARANTINED otherwise, and from VERIFYING that is exactly if the decision is QUARANTINE. */
  lemma FirstReleaseDecides(b: Assessment.Brief, d: Durable, after: Durable, r: ReleaseResult)
    requires d.state in {RUNNING, VERIFYING} && ExecutionOrder(b.w).Ok? && ReleaseFollows(b, d, after, r)
    requires Assessment.AllStored(Assessment.Needed(b.w), d.files)
    ensures r.Assessed? && r.state == after.state && AssessedAs(b, d, r.assessment)
    ensures after == d.(state := if r.assessment.decision.decision == Release.RELEASE then RELEASED else QUARANTINED)
    ensures d.state == RUNNING ==> r.assessment.decision.decision == Release.QUARANTINE
  {
    Assessment.ReadableIffStored(b, d.files);
    ReadableIsJudged(b, d, after, r);
    OnlyVerifyingIsReleased(b, d, r.assessment);
    SettledMoves(d, after, r.assessment, r);
  }

  lemma OnlyVerifyingIsReleased(b: Assessment.Brief, d: Durable, a: Assessment.Assessment)
    requires AssessedAs(b, d, a)
    ensures a.decision.decision == Release.RELEASE ==> d.state == VERIFYING
  {
    var rows :| Assessment.Assesses(b, d, rows, a);
  }

  lemma SettledMoves(d: Durable, after: Durable, a: Assessment.Assessment, r: ReleaseResult)
    requires d.state in {RUNNING, VERIFYING} && Settles(d, after, a, r)
    requires a.decision.decision == Release.RELEASE ==> d.state == VERIFYING
    ensures r.Assessed? && r.state == after.state
    ensures after == d.(state := if a.decision.decision == Release.RELEASE then RELEASED else QUARANTINED)
  {
  }

  /** What two assessments have in common when only the state of the run differs: everything but the reason that names
      the state, and with it possibly the decision. */
  ghost predicate SameFindings(a: Assessment.Assessment, a': Assessment.Assessment) {
    && a'.results == a.results && a'.report == a.report && a'.scores == a.scores
    && a'.verified.verdict == a.verified.verdict && a'.verified.coverage == a.verified.coverage
    && a'.verified.unverifiedClaims == a.verified.unverifiedClaims
    && SameReasons(a.decision.reasonCodes, a'.decision.reasonCodes)
  }

  ghost predicate SameReasons(reasons: seq<Release.ReasonCode>, reasons': seq<Release.ReasonCode>) {
    forall c: Release.ReasonCode :: !c.NotVerifying? ==> (c in reasons' <==> c in reasons)
  }

  lemma OnlyTheStateDiffers(b: Assessment.Brief, d: Durable, d': Durable, a: Assessment.Assessment,
                            a': Assessment.Assessment)
    requires d' == d.(state := d'.state) && AssessedAs(b, d, a) && AssessedAs(b, d', a')
    ensures SameFindings(a, a')
  {
    var rows :| Assessment.Assesses(b, d, rows, a);
    var other :| Assessment.Assesses(b, d', other, a');
    var t := b.contract.terms;
    Verifier.VerdictIgnoresOrder(t, b.w, b.snapshots, rows, other, d.records);
    Release.ScoresIgnoreOrder(t, b.w, b.snapshots, rows, other, d.records, a.results, a.report);
    ReasonsExplained(b, d, rows, a);
    ReasonsExplained(b, d', other, a');
    SameCases(Assessment.CaseOf(b, d, rows), Assessment.CaseOf(b, d', other), a.decision.reasonCodes,
      a'.decision.reasonCodes);
  }

  lemma ReasonsExplained(b: Assessment.Brief, d: Durable, rows: seq<StepRow>, a: Assessment.Assessment)
    requires Assessment.Assesses(b, d, rows, a)
    ensures Release.Explains(a.decision.reasonCodes, Assessment.CaseOf(b, d, rows))
    ensures a.verified == Verifier.Verified(b.contract.terms, b.w, b.snapshots, rows)
  {
  }

  lemma NamesTheCase(c: Release.Case, reasons: seq<Release.ReasonCode>)
    requires Release.Explains(reasons, c)
    ensures forall s :: Release.NotVerifying(s) in reasons <==> s == c.state && s != VERIFYING
  {
    forall s ensures Release.Applies(Release.NotVerifying(s), c) <==> s == c.state && s != VERIFYING {}
  }

  lemma NamesTheState(b: Assessment.Brief, d: Durable, a: Assessment.Assessment)
    requires AssessedAs(b, d, a)
    ensures forall s :: Release.NotVerifying(s) in a.decision.reasonCodes <==> s == d.state && s != VERIFYING
  {
    var rows :| Assessment.Assesses(b, d, rows, a);
    ReasonsExplained(b, d, rows, a);
    NamesTheCase(Assessment.CaseOf(b, d, rows), a.decision.reasonCodes);
  }

  /** Two cases that differ in the state and the listed defects alone are quarantined for the same other reasons. */
  lemma SameCases(c: Release.Case, c': Release.Case, reasons: seq<Release.ReasonCode>,
                  reasons': seq<Release.ReasonCode>)
    requires c.contract == c'.contract && c.checks == c'.checks && c.reconciled == c'.reconciled
    requires c.verified.verdict == c'.verified.verdict && c.verified.recommendsRelease == c'.verified.recommendsRelease
    requires Release.Explains(reasons, c) && Release.Explains(reasons', c')
    ensures SameReasons(reasons, reasons')
  {
    forall r: Release.ReasonCode | !r.NotVerifying? ensures Release.Applies(r, c) <==> Release.Applies(r, c') {}
  }

  // ---- How a run ended ----

  /** The step at `k` is a release that moved the run. */
  ghost predicate EndsRun(x: Setting, h: seq<Life>, k: int) {
    && 0 <= k < |h| - 1 && h[k].Live? && h[k + 1].Live?
    && Released(x, h[k].c, h[k + 1].c) && h[k + 1].c.d.state != h[k].c.d.state
  }

  ghost predicate EndedByRelease(x: Setting, h: seq<Life>, i: int) {
    exists k :: 0 <= k < i && EndsRun(x, h, k)
  }

  ghost predicate Ended(l: Life) {
    l.Live? && l.c.d.state in {RELEASED, QUARANTINED, ROLLED_BACK}
  }

  /** The step at which a run ended; from then on its stores have been the same. */
  lemma {:induction false} EndingIsFound(h: seq<Life>, i: nat) returns (k: nat)
    requires i < |h| && !Ended(h[0]) && Ended(h[i]) && forall a :: 0 <= a < |h| - 1 ==> Stays(h, a)
    ensures k < i && !Ended(h[k]) && Ended(h[k + 1]) && h[k + 1].c.d == h[i].c.d
  {
    assert Stays(h, i - 1);
    if Ended(h[i - 1]) { k := EndingIsFound(h, i - 1); } else { k := i - 1; }
  }

  lemma BornUnended(x: Setting, h: seq<Life>)
    requires IsLife(x, h)
    ensures h != [] && !Ended(h[0])
  {
  }

  lemma LastLiveStep(x: Setting, h: seq<Life>, i: nat) returns (k: nat)
    requires JobOk(x.j) && IsLife(x, h) && i < |h| && Ended(h[i])
    ensures k < i && !Ended(h[k]) && Ended(h[k + 1]) && h[k + 1].c.d == h[i].c.d
  {
    BornUnended(x, h);
    AllStay(x, h);
    k := EndingIsFound(h, i);
  }

  lemma DecidedHasEnded(x: Setting, c0: Config, c: Config)
    requires Decided(x, c0, c)
    ensures Assessment.Terminal(c.d.state)
  {
  }

  /** The step that ended a run was a release, or it was a step of `run` on a run that no release had touched. */
  lemma EndingStep(x: Setting, h: seq<Life>, k: nat)
    requires JobOk(x.j) && IsLife(x, h) && k + 1 < |h| && !Ended(h[k]) && Ended(h[k + 1])
    ensures EndsRun(x, h, k) || Traced(x.j, h[k + 1].c)
  {
    LifeKeeps(x, h, k);
    assert StepAt(x, h, k);
    if h[k].Live? {
      if !Traced(x.j, h[k].c) {
        var c0 :| Decided(x, c0, h[k].c);
        DecidedHasEnded(x, c0, h[k].c);
      }
      if Next(x.j, h[k].c, h[k + 1].c) { TracedNext(x.j, h[k].c, h[k + 1].c); }
    } else {
      SeededIsRunning(x.j, |x.j.w.sources|);
    }
  }

  lemma TracedEndIsUnstored(j: Job, c: Config)
    requires JobOk(j) && Traced(j, c) && Assessment.Terminal(c.d.state)
    ensures !Assessment.AllStored(Assessment.Needed(j.w), c.d.files)
  {
    TracedStates(j, c);
    var tr :| EndsIn(j, tr, c);
    StoredIffVerifying(j, tr, |tr| - 1);
  }

  lemma ReleaseEndIsStored(x: Setting, h: seq<Life>, k: nat, i: nat)
    requires JobOk(x.j) && IsLife(x, h) && EndsRun(x, h, k) && k < i < |h|
    ensures h[i].Live? && h[i].c.d == h[k + 1].c.d
    ensures Ended(h[i]) && Assessment.AllStored(Assessment.Needed(x.j.w), h[i].c.d.files)
  {
    ReleaseMoves(x, h[k].c.d, h[k + 1].c.d);
    EndedForever(x, h, k + 1, i);
  }

  lemma StoredIffEndedByRelease(x: Setting, h: seq<Life>, i: nat)
    requires JobOk(x.j) && IsLife(x, h) && i < |h| && Ended(h[i])
    ensures Assessment.AllStored(Assessment.Needed(x.j.w), h[i].c.d.files) <==> EndedByRelease(x, h, i)
  {
    if EndedByRelease(x, h, i) {
      var k :| 0 <= k < i && EndsRun(x, h, k);
      ReleaseEndIsStored(x, h, k, i);
    } else {
      var k := LastLiveStep(x, h, i);
      EndingStep(x, h, k);
      TracedEndIsUnstored(x.j, h[k + 1].c);
    }
  }

  // ---- The sources of a run are always stored ----

  ghost predicate SourcesStored(w: Workflow, files: map<string, Frame>) {
    forall ref :: ref in SourceRefs(w) ==> Path(ref) in files
  }

  lemma {:induction false} SeededStores(j: Job, n: nat)
    requires n <= |j.w.sources|
    ensures forall k :: 0 <= k < n ==> Path(SourceRef(j.w.sources[k])) in Seeded(j, n).files
  {
    if n > 0 { SeededStores(j, n - 1); }
  }

  lemma NextKeepsFiles(j: Job, c: Config, c': Config)
    requires Next(j, c, c')
    ensures c.d.files.Keys <= c'.d.files.Keys
  {
  }

  lemma {:induction false} SourcesStayStored(x: Setting, h: seq<Life>, i: nat)
    requires IsLife(x, h) && i < |h| && h[i].Live?
    ensures SourcesStored(x.j.w, h[i].c.d.files)
  {
    if i > 0 {
      assert StepAt(x, h, i - 1);
      if h[i - 1].Live? {
        SourcesStayStored(x, h, i - 1);
        if Released(x, h[i - 1].c, h[i].c) {
          ReleaseMoves(x, h[i - 1].c.d, h[i].c.d);
        } else if h[i] != h[i - 1] {
          NextKeepsFiles(x.j, h[i - 1].c, h[i].c);
        }
      } else {
        SeededStores(x.j, |x.j.w.sources|);
      }
    }
  }

  ghost predicate EveryStepStored(w: Workflow, files: map<string, Frame>) {
    forall s :: s in w.steps ==> Path(s.id) in files
  }

  lemma NeededIffSteps(w: Workflow, files: map<string, Frame>)
    requires RefsKnown(w) && SourcesStored(w, files)
    ensures Assessment.AllStored(Assessment.Needed(w), files) <==> EveryStepStored(w, files)
  {
    forall s | s in w.steps ensures s.id in Assessment.Needed(w) { Assessment.StepsAreNeeded(w, s.id); }
    if EveryStepStored(w, files) { NodesAreStored(w, files); }
  }

  // ---- Main results ----

  /** A release of a run that has ended never changes anything. It judges the run again exactly if every step's file is
      stored, and that is exactly if a release had ended the run; otherwise, `run` having quarantined it, it raises an
      untyped error. Whatever the contract, the decision is QUARANTINE, on a RELEASED run too. */
  lemma JudgedAgainIff(x: Setting, h: seq<Life>, i: nat, contract: Contract.Contract, after: Durable, r: ReleaseResult)
    requires JobOk(x.j) && IsLife(x, h) && i < |h| && Ended(h[i])
    requires ReleaseFollows(BriefOn(x, contract), h[i].c.d, after, r)
    ensures after == h[i].c.d
    ensures r.Assessed? <==> EveryStepStored(x.j.w, h[i].c.d.files)
    ensures r.Assessed? <==> EndedByRelease(x, h, i)
    ensures r.Assessed? ==> r.state == h[i].c.d.state && r.assessment.decision.decision == Release.QUARANTINE
    ensures !r.Assessed? ==> r == Lost && h[i].c.d.state == QUARANTINED
  {
    EndedIsRejudged(BriefOn(x, contract), h[i].c.d, after, r);
    SourcesStayStored(x, h, i);
    NeededIffSteps(x.j.w, h[i].c.d.files);
    StoredIffEndedByRelease(x, h, i);
    if !r.Assessed? { UnstoredIsQuarantined(x, h, i); }
  }

  lemma UnstoredIsQuarantined(x: Setting, h: seq<Life>, i: nat)
    requires JobOk(x.j) && IsLife(x, h) && i < |h| && Ended(h[i]) && !EndedByRelease(x, h, i)
    ensures h[i].c.d.state == QUARANTINED
  {
    var k := LastLiveStep(x, h, i);
    EndingStep(x, h, k);
    TracedStates(x.j, h[k + 1].c);
  }

  /** Once a release has ended a run, every later one judges it again and finds QUARANTINE. So it repeats the first
      verdict exactly if that was QUARANTINE. On the same contract it finds the same results, report, verdict, coverage
      and scores; of the reasons it gives, one always is new: that the run is no longer VERIFYING. */
  lemma RepeatsIffQuarantined(x: Setting, h: seq<Life>, k: nat, i: nat, contract: Contract.Contract,
                              first: ReleaseResult, contract': Contract.Contract, after: Durable, again: ReleaseResult)
    requires JobOk(x.j) && IsLife(x, h) && k < i < |h| && h[k].Live? && !Ended(h[k]) && EndsRun(x, h, k)
    requires ReleaseFollows(BriefOn(x, contract), h[k].c.d, h[k + 1].c.d, first)
    requires Ended(h[i]) && ReleaseFollows(BriefOn(x, contract'), h[i].c.d, after, again)
    ensures first.Assessed? && again.Assessed? && after == h[i].c.d == h[k + 1].c.d
    ensures again.assessment.decision.decision == first.assessment.decision.decision <==>
            first.assessment.decision.decision == Release.QUARANTINE
    ensures contract' == contract ==> SameFindings(first.assessment, again.assessment)
    ensures Release.NotVerifying(after.state) in again.assessment.decision.reasonCodes
    ensures Release.NotVerifying(after.state) !in first.assessment.decision.reasonCodes
  {
    ReleaseEndIsStored(x, h, k, i);
    JudgedAgainIff(x, h, i, contract', after, again);
    ReleaseMoves(x, h[k].c.d, h[k + 1].c.d);
    NamesTheState(BriefOn(x, contract), h[k].c.d, first.assessment);
    NamesTheState(BriefOn(x, contract'), h[i].c.d, again.assessment);
    if contract' == contract {
      OnlyTheStateDiffers(BriefOn(x, contract), h[k].c.d, h[i].c.d, first.assessment, again.assessment);
    }
  }

  ghost predicate Reversed(after: Durable, r: ReleaseResult) {
    r.Assessed? && r.assessment.decision.decision == Release.QUARANTINE && after.state == RELEASED
  }

  /** On these stores every release, on whatever contract, decides QUARANTINE and leaves them RELEASED. */
  ghost predicate AlwaysReversed(x: Setting, d: Durable) {
    forall contract, after, r | ReleaseFollows(BriefOn(x, contract), d, after, r) :: Reversed(after, r)
  }

  lemma ReleaseIsReversed(x: Setting, h: seq<Life>, i: nat, contract: Contract.Contract, after: Durable,
                          r: ReleaseResult)
    requires JobOk(x.j) && IsLife(x, h) && i < |h| && h[i].Live? && h[i].c.d.state == RELEASED
    requires ReleaseFollows(BriefOn(x, contract), h[i].c.d, after, r)
    ensures Reversed(after, r)
  {
    JudgedAgainIff(x, h, i, contract, after, r);
  }

  /** On a RELEASED run no release ever returns the decision it was released by. */
  lemma ReleasedIsReversed(x: Setting, h: seq<Life>, i: nat)
    requires JobOk(x.j) && IsLife(x, h) && i < |h| && h[i].Live? && h[i].c.d.state == RELEASED
    ensures AlwaysReversed(x, h[i].c.d)
  {
    forall contract, after, r | ReleaseFollows(BriefOn(x, contract), h[i].c.d, after, r) ensures Reversed(after, r) {
      ReleaseIsReversed(x, h, i, contract, after, r);
    }
  }

  lemma SomeRunDeserves(name: string, id: string) returns (x: Setting, h: seq<Life>, first: Contract.Contract)
    requires Apart(name, id)
    ensures JobOk(x.j) && IsLife(x, h) && h[|h| - 1].Live? && h[|h| - 1].c.d.state == RELEASED
    ensures Deserves(x, first, h[|h| - 1].c.d.(state := VERIFYING))
  {
    x, h, first := SomeRunIsReleased(name, id);
  }

  /** An instance: for any source and any step with a file of its own there is a run that was decided RELEASE and that
      every later release judges QUARANTINE. */
  lemma SomeVerdictIsReversed(name: string, id: string) returns (x: Setting, h: seq<Life>, first: Contract.Contract)
    requires Apart(name, id)
    ensures JobOk(x.j) && IsLife(x, h) && h[|h| - 1].Live? && h[|h| - 1].c.d.state == RELEASED
    ensures Deserves(x, first, h[|h| - 1].c.d.(state := VERIFYING)) && AlwaysReversed(x, h[|h| - 1].c.d)
  {
    x, h, first := SomeRunDeserves(name, id);
    ReleasedIsReversed(x, h, |h| - 1);
  }
}
