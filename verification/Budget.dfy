/** A call of `run()` by a process that lives through a given number of durable writes, and how many writes
    are enough for it to reach its end. */
module Budget {
  import opened Values
  import opened Frames
  import opened Dsl
  import opened Denotation
  import opened Protocol

  /** The next step of an active call is a durable write. */
  predicate Writes(j: Job, c: Config) {
    match c.pc
    case Idle => false
    case AtStep(i) =>
      if i < |j.steps| then
        var next := Begin(j, c, i, j.steps[i]).pc;
        next.Executing? || next.Quarantining?
      else true
    case Executing(_, _) => false
    case Executed(i, outcome) => i < |j.steps| && !outcome.Escapes?
    case Saved(i, _) => i < |j.steps|
    case Quarantining => true
  }

  /** Anything else leaves the stores alone. */
  lemma OnlyWritesChange(j: Job, c: Config)
    requires !Writes(j, c)
    ensures Advance(j, c).d == c.d
  {
  }

  /** Where a call stands when its process dies instead of making one write more than `writes`, or when the
      call has ended before that. */
  function Survive(j: Job, c: Config, writes: nat): Config
    decreases Rank(j, c.pc)
  {
    if c.pc.Idle? || (Writes(j, c) && writes == 0) then c
    else Survive(j, Advance(j, c), if Writes(j, c) then writes - 1 else writes)
  }

  /** The most writes a call can still make. */
  function WritesLeft(j: Job, pc: Pc): nat {
    var n := |j.steps|;
    match pc
    case Idle => 0
    case AtStep(i) => if i < n then 3 * (n - i) + 1 else 1
    case Executing(i, _) => if i < n then 3 * (n - i) else 0
    case Executed(i, _) => if i < n then 3 * (n - i) else 0
    case Saved(i, _) => if i < n then 3 * (n - i) - 1 else 0
    case Quarantining => 1
  }

  lemma WritesLeftDrops(j: Job, c: Config)
    requires !c.pc.Idle?
    ensures WritesLeft(j, Advance(j, c).pc) + (if Writes(j, c) then 1 else 0) <= WritesLeft(j, c.pc)
  {
  }

  /** With enough writes the process sees the whole call. */
  lemma {:induction false} EnoughWrites(j: Job, c: Config, writes: nat)
    requires WritesLeft(j, c.pc) <= writes
    ensures Survive(j, c, writes) == Complete(j, c) && Complete(j, c).pc.Idle?
    decreases Rank(j, c.pc)
  {
    if !c.pc.Idle? {
      WritesLeftDrops(j, c);
      EnoughWrites(j, Advance(j, c), if Writes(j, c) then writes - 1 else writes);
    }
  }

  /** A call that ended is the whole call. */
  lemma {:induction false} EndedIsComplete(j: Job, c: Config, writes: nat)
    requires Survive(j, c, writes).pc.Idle?
    ensures Survive(j, c, writes) == Complete(j, c)
    decreases Rank(j, c.pc)
  {
    if !c.pc.Idle? { EndedIsComplete(j, Advance(j, c), if Writes(j, c) then writes - 1 else writes); }
  }

  lemma {:induction false} IterateTwice(j: Job, c: Config, m: nat, n: nat)
    ensures Iterate(j, Iterate(j, c, m), n) == Iterate(j, c, m + n)
  {
    if n > 0 {
      IterateTwice(j, c, m, n - 1);
      var before := Iterate(j, c, m + (n - 1));
      assert Iterate(j, Iterate(j, c, m), n) == Advance(j, before) == Iterate(j, c, m + n);
    }
  }

  /** However many writes it lived through, the call took a number of protocol steps. */
  lemma {:induction false} SurvivesBySteps(j: Job, c: Config, writes: nat) returns (n: nat)
    ensures Iterate(j, c, n) == Survive(j, c, writes)
    decreases Rank(j, c.pc)
  {
    if c.pc.Idle? || (Writes(j, c) && writes == 0) {
      n := 0;
    } else {
      var m := SurvivesBySteps(j, Advance(j, c), if Writes(j, c) then writes - 1 else writes);
      IterateTwice(j, c, 1, m);
      assert Iterate(j, c, 1) == Advance(j, Iterate(j, c, 0));
      n := 1 + m;
    }
  }

  /** Living through some writes and then through more of them is living through all of them. */
  lemma {:induction false} MoreWritesGoOn(j: Job, c: Config, writes: nat, more: nat)
    ensures Survive(j, Survive(j, c, writes), more) == Survive(j, c, writes + more)
    decreases Rank(j, c.pc)
  {
    if !c.pc.Idle? && !(Writes(j, c) && writes == 0) {
      MoreWritesGoOn(j, Advance(j, c), if Writes(j, c) then writes - 1 else writes, more);
    }
  }
}
