/** Plan-time review of a proposed join, from profiles and, when they are at hand, the real frames. */
module JoinReview {
  import opened Values
  import opened Seqs
  import opened Frames
  import opened Join
  import opened Profiling

  datatype KeyEvidence = GovernedMapping | ExplicitUserMapping | NameSimilarityOnly

  datatype Severity = Blocking | NeedsClarification | Warning

  datatype IssueCode =
    | NoJoinKeys | KeyCountMismatch | KeyMissing | NameSimilarity | KeyDtypeMismatch | AmbiguousKeyCandidates
    | CardinalityUndeclared | UnapprovedManyToMany | DuplicateKey | UniquenessUnverified | LowMatchRate
    | AmplificationRisk

  datatype Issue = Issue(severity: Severity, code: IssueCode)

  datatype Decision = Approve | Reject | Clarify

  datatype Request = Request(
    leftKeys: seq<string>, rightKeys: seq<string>,
    how: How,
    keyEvidence: KeyEvidence,
    leftProfile: DatasetProfile, rightProfile: DatasetProfile,
    cardinality: Option<Cardinality>,
    allowManyToMany: bool,
    ambiguousCandidates: seq<string>,
    leftFrame: Option<Frame>, rightFrame: Option<Frame>,
    minMatchRate: real, maxFactor: real)

  // ---- What the review reports ----

  function MissingColumns(p: DatasetProfile, keys: seq<string>): seq<string> {
    Filter(keys, k => p.Column(k).None?)
  }

  predicate KeysResolved(q: Request) {
    && q.leftKeys != [] && |q.leftKeys| == |q.rightKeys|
    && MissingColumns(q.leftProfile, q.leftKeys) == [] && MissingColumns(q.rightProfile, q.rightKeys) == []
  }

  function KeyIssues(q: Request): seq<Issue> {
    (if q.leftKeys == [] || q.rightKeys == [] then [Issue(Blocking, NoJoinKeys)]
     else if |q.leftKeys| != |q.rightKeys| then [Issue(Blocking, KeyCountMismatch)]
     else []) +
    (if MissingColumns(q.leftProfile, q.leftKeys) != [] then [Issue(Blocking, KeyMissing)] else []) +
    (if MissingColumns(q.rightProfile, q.rightKeys) != [] then [Issue(Blocking, KeyMissing)] else []) +
    (if q.keyEvidence.NameSimilarityOnly? then [Issue(Blocking, NameSimilarity)] else [])
  }

  function DtypeOf(p: DatasetProfile, name: string): string {
    match p.Column(name)
    case None => ""
    case Some(c) => c.dtype
  }

  function DtypeIssues(q: Request, n: nat): seq<Issue>
    requires n <= |q.leftKeys| == |q.rightKeys|
  {
    if n == 0 then []
    else
      DtypeIssues(q, n - 1) +
      (if DtypeOf(q.leftProfile, q.leftKeys[n - 1]) != DtypeOf(q.rightProfile, q.rightKeys[n - 1])
       then [Issue(Blocking, KeyDtypeMismatch)] else [])
  }

  function PlanIssues(q: Request): seq<Issue> {
    (if q.ambiguousCandidates != [] then [Issue(NeedsClarification, AmbiguousKeyCandidates)] else []) +
    (match q.cardinality
     case None => [Issue(NeedsClarification, CardinalityUndeclared)]
     case Some(c) => if c.ManyToMany? && !q.allowManyToMany then [Issue(Blocking, UnapprovedManyToMany)] else [])
  }

  /** With the frame at hand duplicates are looked for; without it only a single candidate-key column is proof. */
  function UniquenessIssues(keys: seq<string>, mustBeUnique: bool, profile: DatasetProfile,
                            frame: Option<Frame>): seq<Issue> {
    if !mustBeUnique then []
    else
      match frame
      case Some(f) => if DuplicateGroups(f, keys) != {} then [Issue(Blocking, DuplicateKey)] else []
      case None =>
        if |keys| == 1 && profile.Column(keys[0]).Some? && profile.Column(keys[0]).value.isCandidateKey then []
        else [Issue(NeedsClarification, UniquenessUnverified)]
  }

  function AsJoin(q: Request, c: Cardinality): JoinParams
    requires |q.leftKeys| == |q.rightKeys|
  {
    JoinSettings(q.leftKeys, q.rightKeys, q.how, c, q.allowManyToMany)
  }

  function Ratio(rowsOut: nat, rowsIn: nat): real {
    if rowsIn == 0 then 0.0 else rowsOut as real / rowsIn as real
  }

  function Amplification(left: Frame, right: Frame, p: JoinParams): real {
    Ratio(|Joined(left.rows, right.rows, p)|, left.Height())
  }

  /** Warnings from the real frames; the declared cardinality plays no part in them. */
  function FrameWarnings(q: Request): seq<Issue>
    requires |q.leftKeys| == |q.rightKeys|
  {
    match (q.leftFrame, q.rightFrame)
    case (Some(left), Some(right)) =>
      var p := AsJoin(q, ManyToMany);
      var rate := Rate(left.Height(), |AntiLeft(left.rows, right.rows, p)|);
      (if rate < q.minMatchRate then [Issue(Warning, LowMatchRate)] else []) +
      (if Amplification(left, right, p) > q.maxFactor then [Issue(Warning, AmplificationRisk)] else [])
    case _ => []
  }

  function DtypeGroup(q: Request): seq<Issue> {
    if KeysResolved(q) then DtypeIssues(q, |q.leftKeys|) else []
  }

  function UniquenessGroup(q: Request): seq<Issue> {
    if KeysResolved(q) && q.cardinality.Some? then
      UniquenessIssues(q.leftKeys, LeftMustBeUnique(q.cardinality.value), q.leftProfile, q.leftFrame) +
      UniquenessIssues(q.rightKeys, RightMustBeUnique(q.cardinality.value), q.rightProfile, q.rightFrame)
    else []
  }

  function WarningGroup(q: Request): seq<Issue> {
    if KeysResolved(q) then FrameWarnings(q) else []
  }

  function Issues(q: Request): seq<Issue> {
    KeyIssues(q) + DtypeGroup(q) + PlanIssues(q) + UniquenessGroup(q) + WarningGroup(q)
  }

  // ---- The contract it proposes ----

  datatype Postcheck =
    | MatchRate(least: real, observed: real)
    | MultiplicationFactor(most: real, observed: real)
    | ReconcileMeasures
    | NoFrames

  datatype UnmatchedPolicy = DropUnmatched | KeepLeftRows | KeepRightRows | KeepAllRows

  function PolicyOf(how: How): UnmatchedPolicy {
    match how
    case Inner => DropUnmatched
    case Left => KeepLeftRows
    case Right => KeepRightRows
    case Outer => KeepAllRows
  }

  /** `rowCounts` is the precheck on the two sides' heights. */
  datatype JoinContract = JoinContract(
    how: How,
    keys: seq<(string, string)>,
    cardinality: Option<Cardinality>,
    unmatched: UnmatchedPolicy,
    rowCounts: (nat, nat),
    postchecks: seq<Postcheck>)

  function Postchecks(q: Request): seq<Postcheck>
    requires |q.leftKeys| == |q.rightKeys|
  {
    match (q.leftFrame, q.rightFrame)
    case (Some(left), Some(right)) =>
      var p := AsJoin(q, ManyToMany);
      [MatchRate(q.minMatchRate, Rate(left.Height(), |AntiLeft(left.rows, right.rows, p)|)),
       MultiplicationFactor(q.maxFactor, Amplification(left, right, p)), ReconcileMeasures]
    case _ => [NoFrames]
  }

  /** A contract is proposed, whatever the decision, as soon as the keys are resolved. */
  function Proposed(q: Request): Option<JoinContract> {
    if !KeysResolved(q) then None
    else Some(JoinContract(
      q.how, seq(|q.leftKeys|, i requires 0 <= i < |q.leftKeys| => (q.leftKeys[i], q.rightKeys[i])), q.cardinality,
      PolicyOf(q.how), (q.leftProfile.rowCount, q.rightProfile.rowCount), Postchecks(q)))
  }

  /** The join a contract describes. */
  function ContractJoin(c: JoinContract, cardinality: Cardinality, allowManyToMany: bool): JoinParams {
    JoinSettings(
      seq(|c.keys|, i requires 0 <= i < |c.keys| => c.keys[i].0),
      seq(|c.keys|, i requires 0 <= i < |c.keys| => c.keys[i].1),
      c.how, cardinality, allowManyToMany)
  }

  predicate Raised(issues: seq<Issue>, severity: Severity) {
    exists i :: i in issues && i.severity == severity
  }

  function Decide(issues: seq<Issue>): Decision {
    if Raised(issues, Blocking) then Reject
    else if Raised(issues, NeedsClarification) then Clarify
    else Approve
  }

  method ReviewKeys(q: Request) returns (issues: seq<Issue>, keysResolved: bool)
    ensures issues == KeyIssues(q) && keysResolved == KeysResolved(q)
  {
    issues := [];
    if q.leftKeys == [] || q.rightKeys == [] {
      issues := issues + [Issue(Blocking, NoJoinKeys)];
    } else if |q.leftKeys| != |q.rightKeys| {
      issues := issues + [Issue(Blocking, KeyCountMismatch)];
    }
    var missingLeft, missingRight := MissingColumns(q.leftProfile, q.leftKeys),
      MissingColumns(q.rightProfile, q.rightKeys);
    if missingLeft != [] { issues := issues + [Issue(Blocking, KeyMissing)]; }
    if missingRight != [] { issues := issues + [Issue(Blocking, KeyMissing)]; }
    keysResolved := q.leftKeys != [] && |q.leftKeys| == |q.rightKeys| && missingLeft == [] && missingRight == [];
    if q.keyEvidence.NameSimilarityOnly? { issues := issues + [Issue(Blocking, NameSimilarity)]; }
  }

  method ReviewDtypes(q: Request) returns (issues: seq<Issue>)
    requires |q.leftKeys| == |q.rightKeys|
    ensures issues == DtypeIssues(q, |q.leftKeys|)
  {
    issues := [];
    for i := 0 to |q.leftKeys|
      invariant issues == DtypeIssues(q, i)
    {
      if DtypeOf(q.leftProfile, q.leftKeys[i]) != DtypeOf(q.rightProfile, q.rightKeys[i]) {
        issues := issues + [Issue(Blocking, KeyDtypeMismatch)];
      }
    }
  }

  method Review(q: Request) returns (decision: Decision, contract: Option<JoinContract>, issues: seq<Issue>)
    ensures issues == Issues(q) && decision == Decide(issues) && contract == Proposed(q)
  {
    var keyIssues, keysResolved := ReviewKeys(q);
    issues := keyIssues;
    var dtypes: seq<Issue> := [];
    if keysResolved {
      dtypes := ReviewDtypes(q);
    }
    issues := issues + dtypes + PlanIssues(q);
    var duplicates: seq<Issue> := [];
    if keysResolved && q.cardinality.Some? {
      duplicates :=
        UniquenessIssues(q.leftKeys, LeftMustBeUnique(q.cardinality.value), q.leftProfile, q.leftFrame) +
        UniquenessIssues(q.rightKeys, RightMustBeUnique(q.cardinality.value), q.rightProfile, q.rightFrame);
    }
    var warnings: seq<Issue> := [];
    if keysResolved {
      warnings := FrameWarnings(q);
    }
    issues := issues + duplicates + warnings;
    decision := Decide(issues);
    contract := Proposed(q);
  }

  // ---- When a review approves ----

  lemma {:induction false} NoneMissingFromProfile(p: DatasetProfile, keys: seq<string>)
    ensures MissingColumns(p, keys) == [] <==> forall k :: k in keys ==> p.Column(k).Some?
  {
    if keys != [] {
      NoneMissingFromProfile(p, keys[1..]);
      assert keys == [keys[0]] + keys[1..];
    }
  }

  lemma {:induction false} DtypeIssuesBlock(q: Request, n: nat)
    requires n <= |q.leftKeys| == |q.rightKeys|
    ensures (forall i :: i in DtypeIssues(q, n) ==> i.severity == Blocking)
    ensures DtypeIssues(q, n) == [] <==>
      forall i :: 0 <= i < n ==> DtypeOf(q.leftProfile, q.leftKeys[i]) == DtypeOf(q.rightProfile, q.rightKeys[i])
  {
    if n > 0 { DtypeIssuesBlock(q, n - 1); }
  }

  lemma WarningsOnly(q: Request)
    requires |q.leftKeys| == |q.rightKeys|
    ensures forall i :: i in FrameWarnings(q) ==> i.severity == Warning
  {
  }

  ghost predicate Harmless(issues: seq<Issue>) {
    forall i :: i in issues ==> i.severity == Warning
  }

  lemma ApproveIffHarmless(issues: seq<Issue>)
    ensures Decide(issues) == Approve <==> Harmless(issues)
  {
    if Decide(issues) == Approve {
      forall i | i in issues ensures i.severity == Warning {
        assert !(i in issues && i.severity == Blocking) by { assert !Raised(issues, Blocking); }
        assert !(i in issues && i.severity == NeedsClarification) by { assert !Raised(issues, NeedsClarification); }
      }
    }
  }

  lemma HarmlessConcat(a: seq<Issue>, b: seq<Issue>)
    ensures Harmless(a + b) <==> Harmless(a) && Harmless(b)
  {
    if Harmless(a + b) {
      forall i | i in a ensures i.severity == Warning { assert i in a + b; }
      forall i | i in b ensures i.severity == Warning { assert i in a + b; }
    }
  }

  lemma NonWarningsHarmless(issues: seq<Issue>)
    requires forall i :: i in issues ==> i.severity != Warning
    ensures Harmless(issues) <==> issues == []
  {
    if issues != [] { assert issues[0] in issues; }
  }

  lemma IssuesHarmlessIff(q: Request)
    ensures Harmless(Issues(q)) <==>
      Harmless(KeyIssues(q)) && Harmless(DtypeGroup(q)) && Harmless(PlanIssues(q)) &&
      Harmless(UniquenessGroup(q)) && Harmless(WarningGroup(q))
  {
    var keys, dtypes, plan, unique, warnings := KeyIssues(q), DtypeGroup(q), PlanIssues(q), UniquenessGroup(q),
      WarningGroup(q);
    HarmlessConcat(keys, dtypes);
    HarmlessConcat(keys + dtypes, plan);
    HarmlessConcat(keys + dtypes + plan, unique);
    HarmlessConcat(keys + dtypes + plan + unique, warnings);
  }

  lemma KeyIssuesHarmlessIff(q: Request)
    ensures Harmless(KeyIssues(q)) <==> KeysResolved(q) && !q.keyEvidence.NameSimilarityOnly?
  {
    NonWarningsHarmless(KeyIssues(q));
  }

  lemma PlanIssuesHarmlessIff(q: Request)
    ensures Harmless(PlanIssues(q)) <==>
      q.ambiguousCandidates == [] && q.cardinality.Some? && (q.cardinality.value.ManyToMany? ==> q.allowManyToMany)
  {
    NonWarningsHarmless(PlanIssues(q));
  }

  lemma UniquenessNeverWarns(keys: seq<string>, must: bool, profile: DatasetProfile, frame: Option<Frame>)
    ensures Harmless(UniquenessIssues(keys, must, profile, frame)) <==>
      UniquenessIssues(keys, must, profile, frame) == []
  {
    NonWarningsHarmless(UniquenessIssues(keys, must, profile, frame));
  }

  /** Approval, spelled out: nothing blocking or unclear in any of the five groups of issues. */
  lemma ApprovedIff(q: Request)
    ensures Decide(Issues(q)) == Approve <==>
      && KeysResolved(q) && !q.keyEvidence.NameSimilarityOnly? && q.ambiguousCandidates == []
      && DtypeIssues(q, |q.leftKeys|) == []
      && q.cardinality.Some? && (q.cardinality.value.ManyToMany? ==> q.allowManyToMany)
      && UniquenessIssues(q.leftKeys, LeftMustBeUnique(q.cardinality.value), q.leftProfile, q.leftFrame) == []
      && UniquenessIssues(q.rightKeys, RightMustBeUnique(q.cardinality.value), q.rightProfile, q.rightFrame) == []
  {
    ApproveIffHarmless(Issues(q));
    IssuesHarmlessIff(q);
    KeyIssuesHarmlessIff(q);
    PlanIssuesHarmlessIff(q);
    if KeysResolved(q) {
      DtypeIssuesBlock(q, |q.leftKeys|);
      NonWarningsHarmless(DtypeGroup(q));
      WarningsOnly(q);
      if q.cardinality.Some? {
        var l := UniquenessIssues(q.leftKeys, LeftMustBeUnique(q.cardinality.value), q.leftProfile, q.leftFrame);
        var r := UniquenessIssues(q.rightKeys, RightMustBeUnique(q.cardinality.value), q.rightProfile, q.rightFrame);
        HarmlessConcat(l, r);
        UniquenessNeverWarns(q.leftKeys, LeftMustBeUnique(q.cardinality.value), q.leftProfile, q.leftFrame);
        UniquenessNeverWarns(q.rightKeys, RightMustBeUnique(q.cardinality.value), q.rightProfile, q.rightFrame);
      }
    }
  }

  // ---- Every issue, and what it leads to ----

  ghost predicate SomeMissing(p: DatasetProfile, keys: seq<string>) {
    exists k :: k in keys && p.Column(k).None?
  }

  ghost predicate SomeDtypesDiffer(q: Request) {
    |q.leftKeys| == |q.rightKeys| && exists i ::
      0 <= i < |q.leftKeys| && DtypeOf(q.leftProfile, q.leftKeys[i]) != DtypeOf(q.rightProfile, q.rightKeys[i])
  }

  /** The keys of a side that has to be unique repeat in its frame. */
  ghost predicate Repeats(keys: seq<string>, must: bool, frame: Option<Frame>) {
    must && frame.Some? && !UniqueOn(frame.value, keys)
  }

  /** A side has to be unique, and neither its frame nor its profile shows whether it is. */
  ghost predicate Unproven(keys: seq<string>, must: bool, profile: DatasetProfile, frame: Option<Frame>) {
    must && frame.None? && !(|keys| == 1 && profile.Column(keys[0]).Some?
      && profile.Column(keys[0]).value.isCandidateKey)
  }

  lemma KeyIssuesAre(q: Request)
    ensures Issue(Blocking, NoJoinKeys) in KeyIssues(q) <==> q.leftKeys == [] || q.rightKeys == []
    ensures Issue(Blocking, KeyCountMismatch) in KeyIssues(q) <==>
            q.leftKeys != [] && q.rightKeys != [] && |q.leftKeys| != |q.rightKeys|
    ensures Issue(Blocking, KeyMissing) in KeyIssues(q) <==>
            SomeMissing(q.leftProfile, q.leftKeys) || SomeMissing(q.rightProfile, q.rightKeys)
    ensures Issue(Blocking, NameSimilarity) in KeyIssues(q) <==> q.keyEvidence == NameSimilarityOnly
  {
    MissingIff(q.leftProfile, q.leftKeys);
    MissingIff(q.rightProfile, q.rightKeys);
    KeyCodes(q, MissingColumns(q.leftProfile, q.leftKeys) != [], MissingColumns(q.rightProfile, q.rightKeys) != []);
  }

  lemma KeyCodes(q: Request, missingLeft: bool, missingRight: bool)
    requires missingLeft == (MissingColumns(q.leftProfile, q.leftKeys) != [])
    requires missingRight == (MissingColumns(q.rightProfile, q.rightKeys) != [])
    ensures Issue(Blocking, NoJoinKeys) in KeyIssues(q) <==> q.leftKeys == [] || q.rightKeys == []
    ensures Issue(Blocking, KeyCountMismatch) in KeyIssues(q) <==>
            q.leftKeys != [] && q.rightKeys != [] && |q.leftKeys| != |q.rightKeys|
    ensures Issue(Blocking, KeyMissing) in KeyIssues(q) <==> missingLeft || missingRight
    ensures Issue(Blocking, NameSimilarity) in KeyIssues(q) <==> q.keyEvidence == NameSimilarityOnly
  {
    var missing := Issue(Blocking, KeyMissing);
    var a := if q.leftKeys == [] || q.rightKeys == [] then [Issue(Blocking, NoJoinKeys)]
             else if |q.leftKeys| != |q.rightKeys| then [Issue(Blocking, KeyCountMismatch)] else [];
    var b, c := if missingLeft then [missing] else [], if missingRight then [missing] else [];
    var d := if q.keyEvidence.NameSimilarityOnly? then [Issue(Blocking, NameSimilarity)] else [];
    assert KeyIssues(q) == a + b + c + d;
  }

  lemma MissingIff(p: DatasetProfile, keys: seq<string>)
    ensures MissingColumns(p, keys) != [] <==> SomeMissing(p, keys)
  {
    NoneMissingFromProfile(p, keys);
  }

  lemma KeyIssuesBlock(q: Request)
    ensures forall i :: i in KeyIssues(q) ==> i.severity == Blocking
  {
  }

  lemma DtypeIssuesAre(q: Request)
    ensures Issue(Blocking, KeyDtypeMismatch) in DtypeGroup(q) <==> KeysResolved(q) && SomeDtypesDiffer(q)
    ensures forall i :: i in DtypeGroup(q) ==> i == Issue(Blocking, KeyDtypeMismatch)
  {
    if KeysResolved(q) {
      DtypeIssuesBlock(q, |q.leftKeys|);
      DtypeCodes(q, |q.leftKeys|);
      if DtypeGroup(q) != [] { assert DtypeGroup(q)[0] in DtypeGroup(q); }
    }
  }

  lemma {:induction false} DtypeCodes(q: Request, n: nat)
    requires n <= |q.leftKeys| == |q.rightKeys|
    ensures forall i :: i in DtypeIssues(q, n) ==> i == Issue(Blocking, KeyDtypeMismatch)
  {
    if n > 0 { DtypeCodes(q, n - 1); }
  }

  lemma PlanIssuesAre(q: Request)
    ensures Issue(NeedsClarification, AmbiguousKeyCandidates) in PlanIssues(q) <==> q.ambiguousCandidates != []
    ensures Issue(NeedsClarification, CardinalityUndeclared) in PlanIssues(q) <==> q.cardinality == None
    ensures Issue(Blocking, UnapprovedManyToMany) in PlanIssues(q) <==>
            q.cardinality == Some(ManyToMany) && !q.allowManyToMany
    ensures forall i :: i in PlanIssues(q) ==>
      i in {Issue(NeedsClarification, AmbiguousKeyCandidates), Issue(NeedsClarification, CardinalityUndeclared),
            Issue(Blocking, UnapprovedManyToMany)}
  {
  }

  lemma SideIssuesAre(keys: seq<string>, must: bool, profile: DatasetProfile, frame: Option<Frame>)
    ensures var issues := UniquenessIssues(keys, must, profile, frame);
      && (Issue(Blocking, DuplicateKey) in issues <==> Repeats(keys, must, frame))
      && (Issue(NeedsClarification, UniquenessUnverified) in issues <==> Unproven(keys, must, profile, frame))
      && forall i :: i in issues ==>
           i == Issue(Blocking, DuplicateKey) || i == Issue(NeedsClarification, UniquenessUnverified)
  {
    if frame.Some? { NoGroupsIffUnique(frame.value, keys); }
  }

  lemma UniquenessIssuesAre(q: Request)
    ensures Issue(Blocking, DuplicateKey) in UniquenessGroup(q) <==>
      && KeysResolved(q) && q.cardinality.Some?
      && (Repeats(q.leftKeys, q.cardinality.value in {OneToOne, OneToMany}, q.leftFrame)
          || Repeats(q.rightKeys, q.cardinality.value in {OneToOne, ManyToOne}, q.rightFrame))
    ensures Issue(NeedsClarification, UniquenessUnverified) in UniquenessGroup(q) <==>
      && KeysResolved(q) && q.cardinality.Some?
      && (Unproven(q.leftKeys, q.cardinality.value in {OneToOne, OneToMany}, q.leftProfile, q.leftFrame)
          || Unproven(q.rightKeys, q.cardinality.value in {OneToOne, ManyToOne}, q.rightProfile, q.rightFrame))
    ensures forall i :: i in UniquenessGroup(q) ==>
      i == Issue(Blocking, DuplicateKey) || i == Issue(NeedsClarification, UniquenessUnverified)
  {
    if KeysResolved(q) && q.cardinality.Some? {
      SideIssuesAre(q.leftKeys, LeftMustBeUnique(q.cardinality.value), q.leftProfile, q.leftFrame);
      SideIssuesAre(q.rightKeys, RightMustBeUnique(q.cardinality.value), q.rightProfile, q.rightFrame);
    }
  }

  /** The keys name columns of both sides, the same number of them and at least one. */
  lemma ResolvedIff(q: Request)
    ensures KeysResolved(q) <==>
      && q.leftKeys != [] && |q.leftKeys| == |q.rightKeys|
      && !SomeMissing(q.leftProfile, q.leftKeys) && !SomeMissing(q.rightProfile, q.rightKeys)
  {
    NoneMissingFromProfile(q.leftProfile, q.leftKeys);
    NoneMissingFromProfile(q.rightProfile, q.rightKeys);
  }

  ghost predicate SomeSideRepeats(q: Request) {
    && q.cardinality.Some?
    && (Repeats(q.leftKeys, q.cardinality.value in {OneToOne, OneToMany}, q.leftFrame)
        || Repeats(q.rightKeys, q.cardinality.value in {OneToOne, ManyToOne}, q.rightFrame))
  }

  ghost predicate SomeSideUnproven(q: Request) {
    && q.cardinality.Some?
    && (Unproven(q.leftKeys, q.cardinality.value in {OneToOne, OneToMany}, q.leftProfile, q.leftFrame)
        || Unproven(q.rightKeys, q.cardinality.value in {OneToOne, ManyToOne}, q.rightProfile, q.rightFrame))
  }

  /** What makes a review reject. */
  ghost predicate MustReject(q: Request) {
    || !KeysResolved(q)
    || q.keyEvidence == NameSimilarityOnly
    || SomeDtypesDiffer(q)
    || (q.cardinality == Some(ManyToMany) && !q.allowManyToMany)
    || SomeSideRepeats(q)
  }

  /** What makes a review ask back. */
  ghost predicate MustAsk(q: Request) {
    || q.ambiguousCandidates != []
    || q.cardinality == None
    || SomeSideUnproven(q)
  }

  lemma RaisedSplits(a: seq<Issue>, b: seq<Issue>, severity: Severity)
    ensures Raised(a + b, severity) <==> Raised(a, severity) || Raised(b, severity)
  {
    if i :| i in a && i.severity == severity { assert i in a + b; }
    if i :| i in b && i.severity == severity { assert i in a + b; }
  }

  lemma RaisedIff(q: Request, severity: Severity)
    ensures Raised(Issues(q), severity) <==>
      || Raised(KeyIssues(q), severity) || Raised(DtypeGroup(q), severity) || Raised(PlanIssues(q), severity)
      || Raised(UniquenessGroup(q), severity) || Raised(WarningGroup(q), severity)
  {
    var keys, dtypes, plan, unique, warnings :=
      KeyIssues(q), DtypeGroup(q), PlanIssues(q), UniquenessGroup(q), WarningGroup(q);
    RaisedSplits(keys, dtypes, severity);
    RaisedSplits(keys + dtypes, plan, severity);
    RaisedSplits(keys + dtypes + plan, unique, severity);
    RaisedSplits(keys + dtypes + plan + unique, warnings, severity);
  }

  lemma KeysRaise(q: Request)
    ensures Raised(KeyIssues(q), Blocking) <==> !KeysResolved(q) || q.keyEvidence == NameSimilarityOnly
    ensures !Raised(KeyIssues(q), NeedsClarification)
  {
    KeyIssuesAre(q);
    KeyIssuesBlock(q);
    ResolvedIff(q);
    if KeyIssues(q) != [] { assert KeyIssues(q)[0] in KeyIssues(q); }
  }

  lemma DtypesRaise(q: Request)
    ensures Raised(DtypeGroup(q), Blocking) <==> KeysResolved(q) && SomeDtypesDiffer(q)
    ensures !Raised(DtypeGroup(q), NeedsClarification)
  {
    DtypeIssuesAre(q);
  }

  lemma PlanRaises(q: Request)
    ensures Raised(PlanIssues(q), Blocking) <==> q.cardinality == Some(ManyToMany) && !q.allowManyToMany
    ensures Raised(PlanIssues(q), NeedsClarification) <==> q.ambiguousCandidates != [] || q.cardinality == None
  {
    PlanIssuesAre(q);
  }

  lemma UniquenessRaises(q: Request)
    ensures Raised(UniquenessGroup(q), Blocking) <==> KeysResolved(q) && SomeSideRepeats(q)
    ensures Raised(UniquenessGroup(q), NeedsClarification) <==> KeysResolved(q) && SomeSideUnproven(q)
  {
    UniquenessIssuesAre(q);
  }

  lemma WarningsRaiseNothing(q: Request)
    ensures !Raised(WarningGroup(q), Blocking) && !Raised(WarningGroup(q), NeedsClarification)
  {
    if KeysResolved(q) { WarningsOnly(q); }
  }

  lemma AllRaise(q: Request)
    ensures Raised(Issues(q), Blocking) <==> MustReject(q)
    ensures !MustReject(q) ==> (Raised(Issues(q), NeedsClarification) <==> MustAsk(q))
  {
    RaisedIff(q, Blocking);
    RaisedIff(q, NeedsClarification);
    KeysRaise(q);
    DtypesRaise(q);
    PlanRaises(q);
    UniquenessRaises(q);
    WarningsRaiseNothing(q);
  }

  /** The decision: REJECT exactly for unresolved keys, keys alike in name alone, dtypes that differ, an unapproved
      many-to-many, or keys that repeat where they must not; otherwise CLARIFY exactly for several candidates,
        an undeclared
      cardinality, or uniqueness that nothing shows; otherwise APPROVE. */
  lemma DecisionIs(q: Request)
    ensures Decide(Issues(q)) == if MustReject(q) then Reject else if MustAsk(q) then Clarify else Approve
  {
    AllRaise(q);
  }

  lemma WarningCodes(q: Request, left: Frame, right: Frame)
    requires KeysResolved(q) && q.leftFrame == Some(left) && q.rightFrame == Some(right)
    ensures var p := AsJoin(q, ManyToMany);
      && (Issue(Warning, LowMatchRate) in WarningGroup(q) <==>
            Rate(left.Height(), |AntiLeft(left.rows, right.rows, p)|) < q.minMatchRate)
      && (Issue(Warning, AmplificationRisk) in WarningGroup(q) <==> Amplification(left, right, p) > q.maxFactor)
  {
  }

  /** `n` left rows match nothing, and the rate they make is below the threshold. */
  ghost predicate MatchesTooFew(q: Request, left: Frame, right: Frame, rate: real, n: nat)
    requires KeysResolved(q)
  {
    && CountsLeftAlone(n, left.rows, right.rows, AsJoin(q, ManyToMany))
    && IsMatchRate(rate, left.Height(), n) && rate < q.minMatchRate
  }

  /** With resolved keys and both frames, a review warns of a match rate below the threshold. */
  lemma WarnsOfMatchRateIff(q: Request, left: Frame, right: Frame)
    requires KeysResolved(q) && q.leftFrame == Some(left) && q.rightFrame == Some(right)
    ensures Issue(Warning, LowMatchRate) in WarningGroup(q) <==>
      exists rate, n :: MatchesTooFew(q, left, right, rate, n)
  {
    var p := AsJoin(q, ManyToMany);
    var n := |AntiLeft(left.rows, right.rows, p)|;
    WarningCodes(q, left, right);
    LeftAccounting(left.rows, right.rows, p);
    LeftAloneAreCounted(left.rows, right.rows, p);
    RateIs(left.Height(), n);
    OneMatchRate(left, right, p);
    if Rate(left.Height(), n) < q.minMatchRate { assert MatchesTooFew(q, left, right, Rate(left.Height(), n), n); }
  }

  ghost predicate Multiplies(rowsOut: nat, rowsIn: nat, most: real) {
    if rowsIn == 0 then most < 0.0 else rowsOut as real > most * rowsIn as real
  }

  lemma ExceedsIff(rowsOut: nat, rowsIn: nat, most: real)
    ensures Ratio(rowsOut, rowsIn) > most <==> Multiplies(rowsOut, rowsIn, most)
  {
    if rowsIn > 0 {
      var x := rowsOut as real / rowsIn as real;
      assert x * rowsIn as real == rowsOut as real;
    }
  }

  /** It warns of amplification if more rows come out than the factor allows. */
  lemma WarnsOfAmplificationIff(q: Request, left: Frame, right: Frame)
    requires KeysResolved(q) && q.leftFrame == Some(left) && q.rightFrame == Some(right)
    ensures Issue(Warning, AmplificationRisk) in WarningGroup(q) <==>
            Multiplies(|Joined(left.rows, right.rows, AsJoin(q, ManyToMany))|, left.Height(), q.maxFactor)
  {
    WarningCodes(q, left, right);
    ExceedsIff(|Joined(left.rows, right.rows, AsJoin(q, ManyToMany))|, left.Height(), q.maxFactor);
  }

  lemma OneMatchRate(left: Frame, right: Frame, p: JoinParams)
    ensures forall rate, n :: CountsLeftAlone(n, left.rows, right.rows, p) && IsMatchRate(rate, left.Height(), n) ==>
      rate == Rate(left.Height(), |AntiLeft(left.rows, right.rows, p)|)
  {
    var anti := AntiLeft(left.rows, right.rows, p);
    LeftAccounting(left.rows, right.rows, p);
    forall rate, n | CountsLeftAlone(n, left.rows, right.rows, p) && IsMatchRate(rate, left.Height(), n)
      ensures rate == Rate(left.Height(), |anti|)
    {
      var m: multiset<Row> :|
        |m| == n && forall l :: m[l] == if LeftAlone(l, right.rows, p) then multiset(left.rows)[l] else 0;
      forall l ensures multiset(anti)[l] == m[l] { AntiLeftCount(left.rows, right.rows, p, l); }
      assert m == multiset(anti) && |multiset(anti)| == |anti|;
      SameRate(rate, left.Height(), n);
    }
  }

  lemma SameRate(rate: real, total: nat, unmatched: nat)
    requires unmatched <= total && IsMatchRate(rate, total, unmatched)
    ensures rate == Rate(total, unmatched)
  {
    if total > 0 { SameQuotient(rate, (total - unmatched) as real, total as real); }
  }

  lemma SameQuotient(x: real, a: real, b: real)
    requires b > 0.0 && x * b == a
    ensures x == a / b
  {
  }

  /** The checks a proposed contract asks for afterwards: with both frames, the match rate and the multiplication
      seen on them beside the two thresholds, and that additive measures reconcile; without them, that there was
      nothing to look at. */
  lemma PostchecksAre(q: Request)
    requires KeysResolved(q)
    ensures q.leftFrame == None || q.rightFrame == None ==> Postchecks(q) == [NoFrames]
    ensures q.leftFrame.Some? && q.rightFrame.Some? ==>
      exists rate, factor :: SeenOnFrames(q, q.leftFrame.value, q.rightFrame.value, rate, factor)
        && Postchecks(q) ==
           [MatchRate(q.minMatchRate, rate), MultiplicationFactor(q.maxFactor, factor), ReconcileMeasures]
  {
    if q.leftFrame.Some? && q.rightFrame.Some? {
      var left, right, p := q.leftFrame.value, q.rightFrame.value, AsJoin(q, ManyToMany);
      SeenAre(q, left, right);
      PostchecksWithFrames(q, left, right);
    }
  }

  lemma PostchecksWithFrames(q: Request, left: Frame, right: Frame)
    requires KeysResolved(q) && q.leftFrame == Some(left) && q.rightFrame == Some(right)
    ensures var p := AsJoin(q, ManyToMany);
      Postchecks(q) == [MatchRate(q.minMatchRate, Rate(left.Height(), |AntiLeft(left.rows, right.rows, p)|)),
                        MultiplicationFactor(q.maxFactor, Ratio(|Joined(left.rows, right.rows, p)|, left.Height())),
                        ReconcileMeasures]
  {
  }

  /** The match rate and the multiplication that the join has on these frames. */
  ghost predicate SeenOnFrames(q: Request, left: Frame, right: Frame, rate: real, factor: real)
    requires KeysResolved(q)
  {
    var p := AsJoin(q, ManyToMany);
    && (exists n :: CountsLeftAlone(n, left.rows, right.rows, p) && IsMatchRate(rate, left.Height(), n))
    && IsMultiple(factor, |Joined(left.rows, right.rows, p)|, left.Height())
  }

  lemma SeenAre(q: Request, left: Frame, right: Frame)
    requires KeysResolved(q)
    ensures var p := AsJoin(q, ManyToMany);
      SeenOnFrames(q, left, right, Rate(left.Height(), |AntiLeft(left.rows, right.rows, p)|),
                   Ratio(|Joined(left.rows, right.rows, p)|, left.Height()))
  {
    var p := AsJoin(q, ManyToMany);
    LeftAccounting(left.rows, right.rows, p);
    LeftAloneAreCounted(left.rows, right.rows, p);
    RateIs(left.Height(), |AntiLeft(left.rows, right.rows, p)|);
    RatioIs(|Joined(left.rows, right.rows, p)|, left.Height());
  }

  ghost predicate IsMultiple(factor: real, rowsOut: nat, rowsIn: nat) {
    if rowsIn == 0 then factor == 0.0 else factor * rowsIn as real == rowsOut as real
  }

  lemma RatioIs(rowsOut: nat, rowsIn: nat)
    ensures IsMultiple(Ratio(rowsOut, rowsIn), rowsOut, rowsIn)
  {
  }

  // ---- Plan-time approval agrees with execution ----

  /** The review saw true profiles of the frames that will be joined, and real frames or none. */
  ghost predicate Informed(q: Request, left: Frame, right: Frame, trimLower: string -> string) {
    && q.leftProfile == Profile(left, trimLower) && q.rightProfile == Profile(right, trimLower)
    && (q.leftFrame == None || q.leftFrame == Some(left))
    && (q.rightFrame == None || q.rightFrame == Some(right))
  }

  lemma ProfileMirrorsFrame(f: Frame, trimLower: string -> string, name: string)
    ensures Profile(f, trimLower).Column(name).Some? <==> f.Has(name)
    ensures f.Has(name) ==> DtypeOf(Profile(f, trimLower), name) == f.Dtype(name)
    ensures f.Has(name) && Profile(f, trimLower).Column(name).value.isCandidateKey ==> UniqueOn(f, [name])
  {
    ProfiledColumn(f, f.columns, trimLower, name);
    if f.Has(name) {
      CandidateKeyIff(f, Column(name, f.Dtype(name)), trimLower);
      var ks, cells := KeysOf(f.rows, [name]), f.Cells(name);
      assert forall i :: 0 <= i < |f.rows| ==> ks[i][0] == cells[i];
    }
  }

  lemma ResolvedIffKeysAgree(q: Request, left: Frame, right: Frame, trimLower: string -> string)
    requires Informed(q, left, right, trimLower) && q.leftKeys != [] && |q.leftKeys| == |q.rightKeys|
    ensures KeysResolved(q) && DtypeIssues(q, |q.leftKeys|) == [] <==> KeysAgree(left, right, q.leftKeys, q.rightKeys)
  {
    NoneMissingFromProfile(q.leftProfile, q.leftKeys);
    NoneMissingFromProfile(q.rightProfile, q.rightKeys);
    DtypeIssuesBlock(q, |q.leftKeys|);
    forall name { ProfileMirrorsFrame(left, trimLower, name); }
    forall name { ProfileMirrorsFrame(right, trimLower, name); }
    assert forall i :: 0 <= i < |q.leftKeys| ==> q.leftKeys[i] in q.leftKeys && q.rightKeys[i] in q.rightKeys;
  }

  lemma CertifiedUnique(keys: seq<string>, must: bool, f: Frame, frame: Option<Frame>, trimLower: string -> string)
    requires frame == None || frame == Some(f)
    requires forall k :: k in keys ==> f.Has(k)
    ensures UniquenessIssues(keys, must, Profile(f, trimLower), frame) == [] && must ==> UniqueOn(f, keys)
    ensures frame.Some? && (must ==> UniqueOn(f, keys)) ==>
      UniquenessIssues(keys, must, Profile(f, trimLower), frame) == []
  {
    NoGroupsIffUnique(f, keys);
    if |keys| == 1 {
      assert keys == [keys[0]] && keys[0] in keys;
      ProfileMirrorsFrame(f, trimLower, keys[0]);
    }
  }

  /** Plan-time approval implies execution success: approved with true profiles and real frames, or true
      profiles and no frames, the join raises neither a precondition violation nor a duplicate-key block. */
  lemma ApprovalImpliesExecution(q: Request, left: Frame, right: Frame, trimLower: string -> string)
    requires Informed(q, left, right, trimLower) && Decide(Issues(q)) == Approve
    ensures |q.leftKeys| == |q.rightKeys| && q.cardinality.Some?
    ensures ExecuteJoin(left, right, AsJoin(q, q.cardinality.value)).Ok?
  {
    ApprovedIff(q);
    ResolvedIffKeysAgree(q, left, right, trimLower);
    CertifiedUnique(q.leftKeys, LeftMustBeUnique(q.cardinality.value), left, q.leftFrame, trimLower);
    CertifiedUnique(q.rightKeys, RightMustBeUnique(q.cardinality.value), right, q.rightFrame, trimLower);
    ExecutesIff(left, right, AsJoin(q, q.cardinality.value));
  }

  lemma ProposedJoin(q: Request, cardinality: Cardinality)
    requires KeysResolved(q)
    ensures Proposed(q).Some? && ContractJoin(Proposed(q).value, cardinality, q.allowManyToMany) ==
      AsJoin(q, cardinality)
  {
  }

  /** The rows an unmatched policy promises from a join that reports `e`. */
  function PromisedRows(u: UnmatchedPolicy, e: JoinEvidence): nat {
    e.matched + (if u.KeepLeftRows? || u.KeepAllRows? then e.unmatchedLeft else 0)
              + (if u.KeepRightRows? || u.KeepAllRows? then e.unmatchedRight else 0)
  }

  lemma PolicyIsKept(left: Frame, right: Frame, p: JoinParams)
    requires ExecuteJoin(left, right, p).Ok?
    ensures var run := ExecuteJoin(left, right, p).value; |run.rows| == PromisedRows(PolicyOf(p.how), run.evidence)
  {
    JoinAccounting(left, right, p);
  }

  /** An approved review proposes a contract; the join it describes runs, and keeps exactly the unmatched rows that the
      contract's policy says it keeps. */
  lemma ApprovedContractRuns(q: Request, left: Frame, right: Frame, trimLower: string -> string)
    requires Informed(q, left, right, trimLower) && Decide(Issues(q)) == Approve
    ensures Proposed(q).Some? && Proposed(q).value.cardinality.Some?
    ensures var c := Proposed(q).value;
      && var run := ExecuteJoin(left, right, ContractJoin(c, c.cardinality.value, q.allowManyToMany));
      && run.Ok? && |run.value.rows| == PromisedRows(c.unmatched, run.value.evidence)
      && c.rowCounts == (left.Height(), right.Height())
  {
    ApprovedIff(q);
    ApprovalImpliesExecution(q, left, right, trimLower);
    ProposedJoin(q, q.cardinality.value);
    PolicyIsKept(left, right, AsJoin(q, q.cardinality.value));
  }

  /** With both frames at hand and nothing left to clarify, approval and execution success coincide. */
  lemma ApprovalIffExecution(q: Request, left: Frame, right: Frame, trimLower: string -> string)
    requires Informed(q, left, right, trimLower) && q.leftFrame.Some? && q.rightFrame.Some?
    requires q.leftKeys != [] && |q.leftKeys| == |q.rightKeys| && q.cardinality.Some?
    requires !q.keyEvidence.NameSimilarityOnly? && q.ambiguousCandidates == []
    ensures Decide(Issues(q)) == Approve <==> ExecuteJoin(left, right, AsJoin(q, q.cardinality.value)).Ok?
  {
    ApprovedIff(q);
    ResolvedIffKeysAgree(q, left, right, trimLower);
    ExecutesIff(left, right, AsJoin(q, q.cardinality.value));
    if KeysAgree(left, right, q.leftKeys, q.rightKeys) {
      CertifiedUnique(q.leftKeys, LeftMustBeUnique(q.cardinality.value), left, q.leftFrame, trimLower);
      CertifiedUnique(q.rightKeys, RightMustBeUnique(q.cardinality.value), right, q.rightFrame, trimLower);
    }
  }
}
