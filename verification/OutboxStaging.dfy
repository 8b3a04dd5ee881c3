/** What staging an event promises, and what the publisher is then given. */
module OutboxStaging {
  import opened Common
  import opened Outbox
  import opened OutboxDrain

  /** A key that has no row, or whose row was given up. */
  predicate Stageable(rows: Rows, key: Key) {
    key !in rows || rows[key].status.Failed?
  }

  /**
   * Staging under a new key, or over a row that was given up, leaves a pending row
   * with a full count of attempts that carries the message staged now; over any
   * other row it changes nothing. No other row changes.
   */
  lemma StagedRow(rows: Rows, key: Key, e: Staged, now: nat)
    ensures var after := StageRows(rows, key, e, now);
            && after.Keys == rows.Keys + {key}
            && (forall k :: k in rows && k != key ==> after[k] == rows[k])
            && (Stageable(rows, key) ==>
                  after[key].status.Pending? && after[key].attempts == 0 && after[key].lastError.None?
                  && after[key].payload == e.payload)
            && (key !in rows ==>
                  (after[key].target, after[key].pattern, after[key].createdAt) == (e.target, e.pattern, now))
            && (key in rows && rows[key].status.Failed? ==>
                  (after[key].target, after[key].pattern, after[key].createdAt)
                  == (rows[key].target, rows[key].pattern, rows[key].createdAt))
            && (!Stageable(rows, key) ==> after == rows)
  {
  }

  // ---------------------------------------------------------------- from staging to the publisher

  /** Nothing is staged under the key, and the publisher does not throw. */
  predicate Calm(a: Action, key: Key) {
    (a.Stage? ==> a.key != key) && (a.Attempt? ==> a.outcome.Published?)
  }

  predicate AllCalm(acts: seq<Action>, key: Key) {
    forall i :: 0 <= i < |acts| ==> Calm(acts[i], key)
  }

  /** The row has carried this message since call number `from`; neither it nor its loaded copy is given up. */
  ghost predicate Due(s: State, key: Key, from: nat, e: Staged) {
    Inv(s) && Carries(s, key, from, e)
  }

  ghost predicate Carries(s: State, key: Key, from: nat, e: Staged) {
    && key in s.rows && key in s.stagedAt && s.stagedAt[key] == from
    && s.rows[key].payload == e.payload && !s.rows[key].status.Failed?
    && (s.phase.Sweeping? && (key in s.phase.todo || key in s.phase.dirty) && key in s.phase.copies ==>
          !s.phase.copies[key].status.Failed?)
  }

  lemma StagingIsDue(s: State, key: Key, e: Staged, at: nat)
    requires Inv(s) && Stageable(s.rows, key)
    ensures Due(StageNext(s, key, e, at), key, |s.log|, e)
  {
    StepKeepsInv(s, Stage(key, e, at));
    assert KeyOk(StageNext(s, key, e, at), key);
  }

  lemma StepKeepsDue(s: State, a: Action, key: Key, from: nat, e: Staged)
    requires Due(s, key, from, e) && Enabled(s, a) && Calm(a, key)
    ensures Due(Next(s, a), key, from, e)
  {
    StepKeepsInv(s, a);
    LoadedCopy(s, key);
    if a.Attempt? {
      AttemptCarries(s, a.outcome, a.at, key, from, e);
    } else {
      OtherCarries(s, a, key, from, e);
    }
  }

  /** The loaded copy of a row carries the row's message. */
  ghost predicate CopyCarries(s: State, key: Key) {
    s.phase.Sweeping? && key in s.rows && (key in s.phase.todo || key in s.phase.dirty) ==>
      && key in s.phase.copies && s.phase.copies[key].payload == s.rows[key].payload
      && Eligible(s.rows[key])
  }

  lemma LoadedCopy(s: State, key: Key)
    requires Inv(s) && key in s.rows
    ensures CopyCarries(s, key)
  {
    assert KeyOk(s, key);
  }

  lemma AttemptCarries(s: State, outcome: Outcome, at: nat, key: Key, from: nat, e: Staged)
    requires Carries(s, key, from, e) && CopyCarries(s, key) && Enabled(s, Attempt(outcome, at)) && outcome.Published?
    ensures Carries(AttemptNext(s, outcome, at), key, from, e)
  {
    assert s.phase.todo == [s.phase.todo[0]] + s.phase.todo[1..];
  }

  lemma OtherCarries(s: State, a: Action, key: Key, from: nat, e: Staged)
    requires Carries(s, key, from, e) && CopyCarries(s, key) && Enabled(s, a) && !a.Attempt? && Calm(a, key)
    ensures Carries(Next(s, a), key, from, e)
  {
  }

  lemma {:induction false} RunKeepsDue(s: State, acts: seq<Action>, t: State, key: Key, from: nat, e: Staged)
    requires Due(s, key, from, e) && Run(s, acts, t) && AllCalm(acts, key)
    ensures Due(t, key, from, e)
    decreases |acts|
  {
    if acts != [] {
      assert Calm(acts[0], key);
      StepKeepsDue(s, acts[0], key, from, e);
      RunKeepsDue(Next(s, acts[0]), acts[1..], t, key, from, e);
    }
  }

  /** Some call made since was for this key, carried this payload, and went through. */
  ghost predicate Given(log: seq<Publication>, from: nat, key: Key, payload: Payload) {
    exists i :: from <= i < |log| && log[i].key == key && log[i].payload == payload && log[i].outcome.Published?
  }

  /**
   * Stage an event, at any moment, under a new key or over a row that was given up.
   * Let the dispatcher work on in any way, with crashes and other events staged;
   * and then come to rest and sweep. If the key is not staged again and the
   * publisher does not throw, within the drain bound the row is sent, by a call
   * made after the staging that carried the payload staged.
   */
  lemma StagedIsDelivered(s: State, key: Key, e: Staged, at: nat, acts: seq<Action>, ss: seq<State>, n: nat)
    requires Reachable(s) && Stageable(s.rows, key)
    requires QuietSweeps(ss) && Run(StageNext(s, key, e, at), acts, ss[0]) && AllCalm(acts, key)
    requires n == |PendingKeys(ss[0].rows)| && |ss| > 2 * n / 5 + 10
    ensures var t := ss[2 * n / 5 + 10];
            key in t.rows && t.rows[key].status.Sent? && Given(t.log, |s.log|, key, e.payload)
  {
    ReachableInv(s);
    StagingIsDue(s, key, e, at);
    RunKeepsDue(StageNext(s, key, e, at), acts, ss[0], key, |s.log|, e);
    QuietDelivers(ss, n, key, |s.log|, e);
  }

  lemma QuietDelivers(ss: seq<State>, n: nat, key: Key, from: nat, e: Staged)
    requires QuietSweeps(ss) && Due(ss[0], key, from, e)
    requires n == |PendingKeys(ss[0].rows)| && |ss| > 2 * n / 5 + 10
    ensures var t := ss[2 * n / 5 + 10];
            key in t.rows && t.rows[key].status.Sent? && Given(t.log, from, key, e.payload)
  {
    QuietDrainDelivers(ss, n, key);
    QuietStage(ss, 2 * n / 5 + 10, key);
    var t, row := ss[2 * n / 5 + 10], ss[0].rows[key];
    var i :| t.stagedAt[key] <= i < |t.log| && t.log[i] == Publication(key, row.pattern, row.payload, Published);
    assert t.log[i].key == key;
  }

  // ---------------------------------------------------------------- what a sweep reports

  /** A batch is every row that is due, or the 25 oldest of them. */
  lemma BatchSize(rows: Rows, batch: seq<Key>)
    requires IsBatch(rows, batch)
    ensures var due := set k | k in rows && rows[k].status.Pending? && rows[k].attempts < 10;
            && |batch| == (if |due| < 25 then |due| else 25)
            && (forall k :: k in batch ==> k in due)
  {
    var due := set k | k in rows && rows[k].status.Pending? && rows[k].attempts < 10;
    DistinctCount(batch);
    assert Keys(batch) <= due;
    SubsetCount(Keys(batch), due);
    if |batch| < 25 {
      forall k | k in due ensures k in Keys(batch) { assert Eligible(rows[k]); }
      assert due == Keys(batch);
    }
  }

  /**
   * One attempt, field by field: one more attempt at this time; sent if the
   * publisher returned; otherwise the error is kept, and the row is given up
   * exactly at the tenth attempt. Its message never changes.
   */
  lemma AttemptedRow(row: Row, outcome: Outcome, now: nat)
    requires Eligible(row)
    ensures var after := Attempted(row, outcome, now);
            && after.attempts == row.attempts + 1 && after.lastAttemptAt == Some(now)
            && (after.target, after.pattern, after.payload, after.createdAt)
               == (row.target, row.pattern, row.payload, row.createdAt)
            && (after.status.Sent? <==> outcome.Published?)
            && (after.status.Failed? <==> outcome.Threw? && row.attempts == 9)
            && after.lastError == (if outcome.Threw? then Some(outcome.message) else row.lastError)
  {
  }
}
