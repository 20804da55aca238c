/** The run state machine: a constant table of legal edges. */
module StateMachine {
  import opened Values

  datatype RunState =
    | DRAFT | NEEDS_CLARIFICATION | APPROVED | RUNNING | VERIFYING | RELEASED | QUARANTINED | ROLLED_BACK

  function Allowed(current: RunState): set<RunState> {
    match current
    case DRAFT => {NEEDS_CLARIFICATION, APPROVED}
    case NEEDS_CLARIFICATION => {APPROVED}
    case APPROVED => {RUNNING}
    case RUNNING => {VERIFYING, QUARANTINED}
    case VERIFYING => {RELEASED, QUARANTINED}
    case RELEASED => {ROLLED_BACK}
    case QUARANTINED => {}
    case ROLLED_BACK => {}
  }

  /** Some(error) when the edge is not in the table. */
  function Transition(current: RunState, target: RunState): Option<PlatformError> {
    if target in Allowed(current) then None else Some(PlatformError(VALIDATION_FAIL, []))
  }

  /** A history of one run: each entry repeats the previous state or follows a legal edge. */
  ghost predicate Legal(h: seq<RunState>) {
    h != [] && forall i :: 0 <= i < |h| - 1 ==> h[i + 1] == h[i] || Transition(h[i], h[i + 1]).None?
  }

  lemma {:induction false} EnteredByAnEdge(h: seq<RunState>, k: nat) returns (j: nat)
    requires Legal(h) && k < |h| && h[0] != h[k]
    ensures j < k && Transition(h[j], h[k]).None?
    decreases k
  {
    if h[k - 1] == h[k] {
      j := EnteredByAnEdge(h, k - 1);
    } else {
      j := k - 1;
    }
  }

  /** A run drafted and later RELEASED was APPROVED, then RUNNING, then VERIFYING in between. */
  lemma ReleasedOnlyInOrder(h: seq<RunState>, k: nat)
    requires Legal(h) && k < |h| && h[0] == DRAFT && h[k] == RELEASED
    ensures exists a, b, c :: 0 < a < b < c < k && h[a] == APPROVED && h[b] == RUNNING && h[c] == VERIFYING
  {
    var c := EnteredByAnEdge(h, k);
    var b := EnteredByAnEdge(h, c);
    var a := EnteredByAnEdge(h, b);
    assert h[a] == APPROVED && h[b] == RUNNING && h[c] == VERIFYING;
  }

  /** QUARANTINED and ROLLED_BACK are never left; a RELEASED run can only be rolled back. */
  lemma {:induction false} TerminalIsFinal(h: seq<RunState>, i: nat, k: nat)
    requires Legal(h) && i <= k < |h|
    ensures h[i] in {QUARANTINED, ROLLED_BACK} ==> h[k] == h[i]
    ensures h[i] == RELEASED ==> h[k] in {RELEASED, ROLLED_BACK}
    decreases k
  {
    if i < k { TerminalIsFinal(h, i, k - 1); }
  }

  /** The table has these nine edges and no other; any other change is refused as invalid. */
  lemma EdgesAre(a: RunState, b: RunState)
    ensures Transition(a, b).None? <==>
      (a, b) in {(DRAFT, NEEDS_CLARIFICATION), (DRAFT, APPROVED), (NEEDS_CLARIFICATION, APPROVED), (APPROVED, RUNNING),
                 (RUNNING, VERIFYING), (RUNNING, QUARANTINED), (VERIFYING, RELEASED), (VERIFYING, QUARANTINED),
                 (RELEASED, ROLLED_BACK)}
    ensures Transition(a, b).Some? ==> Transition(a, b).value.code == VALIDATION_FAIL
  {
  }
}
