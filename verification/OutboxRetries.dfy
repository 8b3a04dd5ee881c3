/** How often a row that failed for good was really refused: what crashes do to the count of attempts. */
module OutboxRetries {
  import opened Outbox
  import opened OutboxDrain

  // ---------------------------------------------------------------- over a run

  /** This step inserts the row, or queues it again after it failed. */
  predicate Restages(s: State, a: Action, k: Key) {
    a.Stage? && a.key == k && (k !in s.rows || s.rows[k].status.Failed?)
  }

  /** A crash or a throwing flush while the refusal of `k` is not yet written. */
  predicate Forgets(s: State, a: Action, k: Key) {
    a.Abort? && UnrecordedThrow(s.phase, k) == 1
  }

  ghost predicate Restaged(s: State, acts: seq<Action>, k: Key)
    decreases |acts|
  {
    acts != [] && Enabled(s, acts[0]) && (Restages(s, acts[0], k) || Restaged(Next(s, acts[0]), acts[1..], k))
  }

  /** How many steps of a run forget a refusal of `k`, counting from its last staging. */
  ghost function Forgotten(s: State, acts: seq<Action>, k: Key): nat
    decreases |acts|
  {
    if acts == [] || !Enabled(s, acts[0]) then 0
    else
      Forgotten(Next(s, acts[0]), acts[1..], k)
      + if Forgets(s, acts[0], k) && !Restaged(Next(s, acts[0]), acts[1..], k) then 1 else 0
  }

  lemma StepLost(s: State, a: Action, k: Key)
    requires Shape(s) && Enabled(s, a) && k in Next(s, a).lost
    ensures Restages(s, a, k) ==> Next(s, a).lost[k] == 0
    ensures !Restages(s, a, k) ==> k in s.lost && Next(s, a).lost[k] == s.lost[k] + if Forgets(s, a, k) then 1 else 0
  {
  }

  lemma StepKeepsAbsent(s: State, a: Action, k: Key)
    requires Shape(s) && Enabled(s, a) && k !in Next(s, a).lost
    ensures k !in s.lost && !Forgets(s, a, k)
  {
  }

  /** The history counter `lost` counts exactly those steps. */
  lemma {:induction false} LostIsForgotten(s: State, acts: seq<Action>, t: State, k: Key)
    requires Shape(s) && Run(s, acts, t) && k in t.lost
    ensures t.lost[k] == Forgotten(s, acts, k) + if k in s.lost && !Restaged(s, acts, k) then s.lost[k] else 0
    decreases |acts|
  {
    if acts != [] {
      var m := Next(s, acts[0]);
      StepKeepsShape(s, acts[0]);
      LostIsForgotten(m, acts[1..], t, k);
      if k in m.lost { StepLost(s, acts[0], k); } else { StepKeepsAbsent(s, acts[0], k); }
    }
  }

  /**
   * A failed row was refused ten times, and once more for every crash or
   * throwing flush since its last staging that came between a refusal of it and
   * the write of that refusal.
   */
  lemma FailedExactlyAfterTen(acts: seq<Action>, s: State, k: Key)
    requires Run(EMPTY, acts, s) && k in s.rows && s.rows[k].status.Failed?
    ensures k in s.stagedAt && s.stagedAt[k] <= |s.log|
    ensures ThrowsSince(s, k) == MAX_ATTEMPTS + Forgotten(EMPTY, acts, k)
    ensures ThrowsSince(s, k) == MAX_ATTEMPTS <==> Forgotten(EMPTY, acts, k) == 0
  {
    NoEventIsLost(s, k);
    LostIsForgotten(EMPTY, acts, s, k);
  }

  lemma {:induction false} NothingIsForgotten(s: State, acts: seq<Action>, k: Key)
    requires Abort !in acts
    ensures Forgotten(s, acts, k) == 0
    decreases |acts|
  {
    if acts != [] && Enabled(s, acts[0]) {
      assert acts[0] in acts;
      NothingIsForgotten(Next(s, acts[0]), acts[1..], k);
    }
  }

  /** So without a crash or a throwing flush, failed means refused exactly MAX_ATTEMPTS times. */
  lemma UninterruptedFailsAfterTen(acts: seq<Action>, s: State, k: Key)
    requires Run(EMPTY, acts, s) && Abort !in acts && k in s.rows && s.rows[k].status.Failed?
    ensures k in s.stagedAt && s.stagedAt[k] <= |s.log| && ThrowsSince(s, k) == MAX_ATTEMPTS
  {
    NothingIsForgotten(EMPTY, acts, k);
    FailedExactlyAfterTen(acts, s, k);
  }

  // ---------------------------------------------------------------- any larger number occurs

  /** An idle reachable state whose only row is `k`, pending after `n` recorded attempts, with `c` forgotten. */
  ghost predicate Waiting(s: State, k: Key, n: nat, c: nat) {
    && Reachable(s) && s.phase.Idle?
    && s.rows.Keys == {k} && s.rows[k].status.Pending? && s.rows[k].attempts == n < MAX_ATTEMPTS
    && k in s.lost && s.lost[k] == c
  }

  lemma LoneBatch(rows: Rows, k: Key)
    requires rows.Keys == {k} && Eligible(rows[k])
    ensures IsBatch(rows, [k])
  {
  }

  lemma StagedWaits(k: Key, e: Staged) returns (s: State)
    ensures Waiting(s, k, 0, 0)
  {
    assert Run(EMPTY, [], EMPTY);
    ReachableByStep(EMPTY, Stage(k, e, 0));
    s := Next(EMPTY, Stage(k, e, 0));
  }

  /** A sweep that crashes after the refusal: one more call, the same row. */
  lemma CrashedSweep(s: State, k: Key, n: nat, c: nat) returns (t: State)
    requires Waiting(s, k, n, c)
    ensures Waiting(t, k, n, c + 1) && t.rows == s.rows
  {
    LoneBatch(s.rows, k);
    var fetched := Next(s, Fetch([k]));
    ReachableByStep(s, Fetch([k]));
    var refused := Next(fetched, Attempt(Threw("down"), 0));
    ReachableByStep(fetched, Attempt(Threw("down"), 0));
    t := Next(refused, Abort);
    ReachableByStep(refused, Abort);
  }

  /** A sweep that is refused and gets through its flush. */
  lemma RefusedSweep(s: State, k: Key, n: nat, c: nat) returns (t: State)
    requires Waiting(s, k, n, c)
    ensures n + 1 < MAX_ATTEMPTS ==> Waiting(t, k, n + 1, c)
    ensures n + 1 == MAX_ATTEMPTS ==>
            Reachable(t) && k in t.rows && t.rows[k].status.Failed? && k in t.lost && t.lost[k] == c
  {
    var vs := [Verdict(Threw("down"), 0)];
    LoneBatch(s.rows, k);
    SweepReachable(s, [k], vs);
    SweptAt(s.rows, [k], vs, 1);
    assert [k][0] == k;
    t := SweepState(s, [k], vs);
    assert t.rows[k] == Attempted(s.rows[k], vs[0].outcome, vs[0].at);
  }

  lemma {:induction false} CrashedSweeps(k: Key, e: Staged, c: nat) returns (s: State)
    ensures Waiting(s, k, 0, c)
  {
    if c == 0 {
      s := StagedWaits(k, e);
    } else {
      s := CrashedSweeps(k, e, c - 1);
      s := CrashedSweep(s, k, 0, c - 1);
    }
  }

  lemma {:induction false} RefusedUntilFailed(s: State, k: Key, n: nat, c: nat) returns (t: State)
    requires Waiting(s, k, n, c)
    ensures Reachable(t) && k in t.rows && t.rows[k].status.Failed? && k in t.lost && t.lost[k] == c
    decreases MAX_ATTEMPTS - n
  {
    t := RefusedSweep(s, k, n, c);
    if n + 1 < MAX_ATTEMPTS { t := RefusedUntilFailed(t, k, n + 1, c); }
  }

  /** For every event and every c, some reachable failed row was refused 10 + c times. */
  lemma AnyNumberOfRefusals(k: Key, e: Staged, c: nat) returns (t: State)
    ensures Reachable(t) && k in t.rows && t.rows[k].status.Failed?
    ensures k in t.stagedAt && t.stagedAt[k] <= |t.log| && ThrowsSince(t, k) == MAX_ATTEMPTS + c
  {
    var s := CrashedSweeps(k, e, c);
    t := RefusedUntilFailed(s, k, 0, c);
    NoEventIsLost(t, k);
  }

  /** In particular, one crash is enough for an eleventh refusal. */
  lemma FailedAfterEleven(k: Key, e: Staged) returns (t: State)
    ensures Reachable(t) && k in t.rows && t.rows[k].status.Failed? && t.rows[k].attempts == 10
    ensures k in t.stagedAt && t.stagedAt[k] <= |t.log| && ThrowsSince(t, k) == 11
  {
    t := AnyNumberOfRefusals(k, e, 1);
    NoEventIsLost(t, k);
  }

  /** The counter and the calls part company at the first crash: a refusal was made and none is recorded. */
  lemma CrashForgetsAnAttempt(k: Key, e: Staged) returns (s: State)
    ensures Reachable(s) && k in s.rows && s.rows[k].status.Pending? && s.rows[k].attempts == 0
    ensures k in s.stagedAt && s.stagedAt[k] <= |s.log| && ThrowsSince(s, k) == 1
  {
    s := CrashedSweeps(k, e, 1);
    ReachableInv(s);
    assert KeyOk(s, k);
  }
}
