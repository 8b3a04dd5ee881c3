/**
 * The transactional outbox as a protocol: rows staged by producers, a
 * dispatcher whose sweep can be interrupted between any two of its database
 * accesses, and a publisher that may throw.
 *
 * A sweep is split where other code can run or the process can die: the read
 * of the batch, every publish, and the write of every single row (so a flush
 * may be partial). Staging is one step and may happen at any of these points.
 */
module Outbox {
  import opened Common

  const MAX_BATCH := 25
  const MAX_ATTEMPTS := 10

  type Key = string
  type Payload = map<string, string>

  datatype Status = Pending | Sent | Failed

  datatype Row = Row(
    target: string,
    pattern: string,
    payload: Payload,
    status: Status,
    attempts: nat,
    createdAt: nat,
    lastAttemptAt: Option<nat>,
    lastError: Option<string>)

  /** The rows of the collection; its unique index makes the key an identity. */
  type Rows = map<Key, Row>

  /** What a producer passes to `stageOutboxEvent`, besides the key. */
  datatype Staged = Staged(target: string, pattern: string, payload: Payload)

  /** What the publisher did with one call. */
  datatype Outcome = Published | Threw(message: string)

  /** One call of the publisher. The key is history: it is not part of the message. */
  datatype Publication = Publication(key: Key, pattern: string, payload: Payload, outcome: Outcome)

  // ---------------------------------------------------------------- row updates

  predicate Eligible(row: Row) {
    row.status.Pending? && row.attempts < MAX_ATTEMPTS
  }

  function FreshRow(e: Staged, now: nat): Row {
    Row(e.target, e.pattern, e.payload, Pending, 0, now, None, None)
  }

  /** A failed row is queued again with the new payload; any other row is left alone. */
  function StageRows(rows: Rows, key: Key, e: Staged, now: nat): Rows {
    if key !in rows then rows[key := FreshRow(e, now)]
    else if rows[key].status.Failed? then
      rows[key := rows[key].(status := Pending, attempts := 0, lastError := None, payload := e.payload)]
    else rows
  }

  /** One pass of the sweep's loop body over one row. */
  function Attempted(row: Row, outcome: Outcome, now: nat): Row {
    match outcome
    case Published =>
      row.(status := Sent, lastAttemptAt := Some(now), attempts := row.attempts + 1)
    case Threw(message) =>
      row.(attempts := row.attempts + 1, lastAttemptAt := Some(now), lastError := Some(message),
           status := if row.attempts + 1 >= MAX_ATTEMPTS then Failed else row.status)
  }

  /** The answer of the batch query: the oldest eligible rows, at most MAX_BATCH of them. */
  ghost predicate IsBatch(rows: Rows, batch: seq<Key>) {
    && |batch| <= MAX_BATCH
    && Distinct(batch)
    && (forall k :: k in batch ==> k in rows && Eligible(rows[k]))
    && (forall i, j :: 0 <= i < j < |batch| ==> rows[batch[i]].createdAt <= rows[batch[j]].createdAt)
    && (forall k :: k in rows && Eligible(rows[k]) && k !in batch ==>
          |batch| == MAX_BATCH && forall b :: b in batch ==> rows[b].createdAt <= rows[k].createdAt)
  }

  // ---------------------------------------------------------------- the protocol

  /**
   * `copies` are the entities the sweep has loaded and mutates in memory,
   * `todo` those it has still to publish, `dirty` those published (or refused)
   * whose write has not reached the database.
   */
  datatype Phase =
    | Idle
    | Sweeping(todo: seq<Key>, copies: Rows, dirty: set<Key>)

  /**
   * `log`, `stagedAt` and `lost` are history: every publisher call, the length
   * of the log when a row was last inserted or revived, and the number of
   * throwing calls for it that an aborted sweep never recorded.
   */
  datatype State = State(
    rows: Rows,
    phase: Phase,
    log: seq<Publication>,
    stagedAt: map<Key, nat>,
    lost: map<Key, nat>)

  datatype Action =
    | Stage(key: Key, event: Staged, at: nat)
    | Fetch(batch: seq<Key>)
    | Attempt(outcome: Outcome, at: nat)
    | FlushRow(key: Key)
    | Finish
    | Abort  // a crash, or a flush that throws: the loaded entities are dropped

  const EMPTY := State(map[], Idle, [], map[], map[])

  ghost predicate Enabled(s: State, a: Action) {
    match a
    case Stage(_, _, _) => true
    case Fetch(batch) => s.phase.Idle? && IsBatch(s.rows, batch)
    case Attempt(_, _) => s.phase.Sweeping? && s.phase.todo != [] && s.phase.todo[0] in s.phase.copies
    case FlushRow(k) => s.phase.Sweeping? && s.phase.todo == [] && k in s.phase.dirty && k in s.phase.copies
    case Finish => s.phase.Sweeping? && s.phase.todo == [] && s.phase.dirty == {}
    case Abort => s.phase.Sweeping?
  }

  function StageNext(s: State, key: Key, e: Staged, at: nat): State {
    var rows := StageRows(s.rows, key, e, at);
    if key !in s.rows || s.rows[key].status.Failed? then
      s.(rows := rows, stagedAt := s.stagedAt[key := |s.log|], lost := s.lost[key := 0])
    else s.(rows := rows)
  }

  function AttemptNext(s: State, outcome: Outcome, at: nat): State
    requires s.phase.Sweeping? && s.phase.todo != [] && s.phase.todo[0] in s.phase.copies
  {
    var k := s.phase.todo[0];
    var row := s.phase.copies[k];
    s.(log := s.log + [Publication(k, row.pattern, row.payload, outcome)],
       phase := Sweeping(s.phase.todo[1..], s.phase.copies[k := Attempted(row, outcome, at)], s.phase.dirty + {k}))
  }

  /** 1 if the sweep holds an unrecorded throwing attempt for `k`, else 0. */
  function UnrecordedThrow(p: Phase, k: Key): nat {
    if p.Sweeping? && k in p.dirty && k in p.copies && !p.copies[k].status.Sent? then 1 else 0
  }

  ghost function Next(s: State, a: Action): State
    requires Enabled(s, a)
  {
    match a
    case Stage(key, e, at) => StageNext(s, key, e, at)
    case Fetch(batch) =>
      s.(phase := if batch == [] then Idle else Sweeping(batch, map k | k in batch && k in s.rows :: s.rows[k], {}))
    case Attempt(outcome, at) => AttemptNext(s, outcome, at)
    case FlushRow(k) => s.(rows := s.rows[k := s.phase.copies[k]], phase := s.phase.(dirty := s.phase.dirty - {k}))
    case Finish => s.(phase := Idle)
    case Abort => s.(phase := Idle, lost := map k | k in s.lost :: s.lost[k] + UnrecordedThrow(s.phase, k))
  }

  ghost predicate Run(s: State, acts: seq<Action>, s': State)
    decreases |acts|
  {
    if acts == [] then s' == s
    else Enabled(s, acts[0]) && Run(Next(s, acts[0]), acts[1..], s')
  }

  ghost predicate Reachable(s: State) {
    exists acts :: Run(EMPTY, acts, s)
  }

  lemma {:induction false} RunAppend(s: State, xs: seq<Action>, m: State, ys: seq<Action>, t: State)
    requires Run(s, xs, m) && Run(m, ys, t)
    ensures Run(s, xs + ys, t)
    decreases |xs|
  {
    if xs == [] {
      assert xs + ys == ys;
    } else {
      RunAppend(Next(s, xs[0]), xs[1..], m, ys, t);
      assert (xs + ys)[1..] == xs[1..] + ys;
    }
  }

  lemma RunCons(s: State, a: Action, m: State, acts: seq<Action>, t: State)
    requires Enabled(s, a) && m == Next(s, a) && Run(m, acts, t)
    ensures Run(s, [a] + acts, t)
  {
  }

  lemma ReachableByRun(s: State, acts: seq<Action>, t: State)
    requires Reachable(s) && Run(s, acts, t)
    ensures Reachable(t)
  {
    var before :| Run(EMPTY, before, s);
    RunAppend(EMPTY, before, s, acts, t);
  }

  lemma ReachableByStep(s: State, a: Action)
    requires Reachable(s) && Enabled(s, a)
    ensures Reachable(Next(s, a))
  {
    var t := Next(s, a);
    assert [a] + [] == [a] && Run(t, [], t);
    RunCons(s, a, t, [], t);
    ReachableByRun(s, [a], t);
  }

  // ---------------------------------------------------------------- counting publisher calls

  function Throws(log: seq<Publication>, k: Key): nat {
    if log == [] then 0
    else
      var last := log[|log| - 1];
      Throws(log[..|log| - 1], k) + if last.key == k && last.outcome.Threw? then 1 else 0
  }

  /** Some call since `from` was given exactly the row's message and did not throw. */
  ghost predicate Delivered(log: seq<Publication>, from: nat, k: Key, row: Row) {
    exists i :: from <= i < |log| && log[i] == Publication(k, row.pattern, row.payload, Published)
  }

  lemma ThrowsSnoc(log: seq<Publication>, from: nat, p: Publication, k: Key)
    requires from <= |log|
    ensures (log + [p])[from..] == log[from..] + [p]
    ensures Throws((log + [p])[from..], k) == Throws(log[from..], k) + if p.key == k && p.outcome.Threw? then 1 else 0
  {
  }

  // ---------------------------------------------------------------- the invariant

  predicate RowOk(row: Row) {
    match row.status
    case Pending => row.attempts < MAX_ATTEMPTS
    case Sent => 1 <= row.attempts <= MAX_ATTEMPTS
    case Failed => row.attempts == MAX_ATTEMPTS
  }

  /** The throwing attempts a row's own counter accounts for. */
  function RecordedThrows(row: Row): int {
    if row.status.Sent? then row.attempts - 1 else row.attempts
  }

  /** The number of throwing calls made for a row since it was last staged. */
  function ThrowsSince(s: State, k: Key): nat
    requires k in s.stagedAt && s.stagedAt[k] <= |s.log|
  {
    Throws(s.log[s.stagedAt[k]..], k)
  }

  /** What the publisher has seen of a row since it was last staged. */
  ghost predicate Accounted(s: State, k: Key)
    requires k in s.rows && k in s.stagedAt && k in s.lost && s.stagedAt[k] <= |s.log|
  {
    && ThrowsSince(s, k) == RecordedThrows(s.rows[k]) + s.lost[k] + UnrecordedThrow(s.phase, k)
    && (s.rows[k].status.Sent? ==> Delivered(s.log, s.stagedAt[k], k, s.rows[k]))
  }

  /** `copy` is `row` after one more attempt. */
  predicate OneMoreAttempt(row: Row, copy: Row) {
    && copy.attempts == row.attempts + 1
    && (copy.target, copy.pattern, copy.payload, copy.createdAt) == (row.target, row.pattern, row.payload,
        row.createdAt)
    && (copy.status.Sent? || copy.status == if copy.attempts >= MAX_ATTEMPTS then Failed else Pending)
  }

  /** A loaded entity and the durable row it came from. */
  ghost predicate LoadedOk(s: State, k: Key)
    requires k in s.rows && k in s.stagedAt
  {
    s.phase.Sweeping? && (k in s.phase.todo || k in s.phase.dirty) ==>
      && k in s.phase.copies
      && Eligible(s.rows[k])
      && (k in s.phase.todo ==> k !in s.phase.dirty && s.phase.copies[k] == s.rows[k])
      && (k in s.phase.dirty ==> OneMoreAttempt(s.rows[k], s.phase.copies[k]))
      && (k in s.phase.dirty && s.phase.copies[k].status.Sent? ==> Delivered(s.log, s.stagedAt[k], k, s.rows[k]))
  }

  ghost predicate KeyOk(s: State, k: Key) {
    && k in s.rows && k in s.stagedAt && k in s.lost
    && RowOk(s.rows[k])
    && s.stagedAt[k] <= |s.log|
    && Accounted(s, k)
    && LoadedOk(s, k)
  }

  ghost predicate Shape(s: State) {
    && s.stagedAt.Keys == s.rows.Keys == s.lost.Keys
    && (s.phase.Sweeping? ==>
          && Distinct(s.phase.todo)
          && (forall k :: k in s.phase.todo ==> k in s.rows)
          && s.phase.dirty <= s.rows.Keys)
  }

  ghost predicate Inv(s: State) {
    Shape(s) && forall k :: k in s.rows ==> KeyOk(s, k)
  }

  lemma StageKeepsKey(s: State, key: Key, e: Staged, at: nat, k: Key)
    requires Shape(s) && (k in s.rows ==> KeyOk(s, k)) && (k in s.rows || k == key)
    ensures KeyOk(StageNext(s, key, e, at), k)
  {
  }

  lemma DeliveredSnoc(log: seq<Publication>, from: nat, p: Publication, k: Key, row: Row)
    ensures Delivered(log, from, k, row) ==> Delivered(log + [p], from, k, row)
    ensures from <= |log| && p == Publication(k, row.pattern, row.payload, Published) ==>
            Delivered(log + [p], from, k, row)
  {
    assert (log + [p])[|log|] == p;
    if Delivered(log, from, k, row) {
      var i :| from <= i < |log| && log[i] == Publication(k, row.pattern, row.payload, Published);
      assert (log + [p])[i] == log[i];
    }
  }

  lemma AttemptKeepsKey(s: State, outcome: Outcome, at: nat, k: Key)
    requires Shape(s) && Enabled(s, Attempt(outcome, at)) && KeyOk(s, k)
    ensures KeyOk(AttemptNext(s, outcome, at), k)
  {
    var s' := AttemptNext(s, outcome, at);
    var key, todo := s.phase.todo[0], s.phase.todo[1..];
    assert s.phase.todo == [key] + todo;
    assert key !in todo;
    var p := Publication(key, s.phase.copies[key].pattern, s.phase.copies[key].payload, outcome);
    ThrowsSnoc(s.log, s.stagedAt[k], p, k);
    DeliveredSnoc(s.log, s.stagedAt[k], p, k, s.rows[k]);
  }

  lemma FlushKeepsKey(s: State, key: Key, k: Key)
    requires Shape(s) && Enabled(s, FlushRow(key)) && KeyOk(s, k)
    ensures KeyOk(Next(s, FlushRow(key)), k)
  {
  }

  lemma FetchKeepsKey(s: State, batch: seq<Key>, k: Key)
    requires Shape(s) && Enabled(s, Fetch(batch)) && KeyOk(s, k)
    ensures KeyOk(Next(s, Fetch(batch)), k)
  {
  }

  lemma EndKeepsKey(s: State, a: Action, k: Key)
    requires a.Finish? || a.Abort?
    requires Shape(s) && Enabled(s, a) && KeyOk(s, k)
    ensures KeyOk(Next(s, a), k)
  {
  }

  lemma StepKeepsKey(s: State, a: Action, k: Key)
    requires Shape(s) && Enabled(s, a) && k in Next(s, a).rows && (k in s.rows ==> KeyOk(s, k))
    ensures KeyOk(Next(s, a), k)
  {
    match a
    case Stage(key, e, at) => StageKeepsKey(s, key, e, at, k);
    case Attempt(outcome, at) => AttemptKeepsKey(s, outcome, at, k);
    case FlushRow(key) => FlushKeepsKey(s, key, k);
    case Fetch(batch) => FetchKeepsKey(s, batch, k);
    case _ => EndKeepsKey(s, a, k);
  }

  lemma StepKeepsShape(s: State, a: Action)
    requires Shape(s) && Enabled(s, a)
    ensures Shape(Next(s, a))
  {
  }

  lemma StepKeepsInv(s: State, a: Action)
    requires Inv(s) && Enabled(s, a)
    ensures Inv(Next(s, a))
  {
    StepKeepsShape(s, a);
    forall k | k in Next(s, a).rows ensures KeyOk(Next(s, a), k) { StepKeepsKey(s, a, k); }
  }

  lemma {:induction false} RunKeepsInv(s: State, acts: seq<Action>, s': State)
    requires Inv(s) && Run(s, acts, s')
    ensures Inv(s')
    decreases |acts|
  {
    if acts != [] {
      StepKeepsInv(s, acts[0]);
      RunKeepsInv(Next(s, acts[0]), acts[1..], s');
    }
  }

  lemma ReachableInv(s: State)
    requires Reachable(s)
    ensures Inv(s)
  {
    var acts :| Run(EMPTY, acts, s);
    RunKeepsInv(EMPTY, acts, s);
  }

  /** A dispatcher step neither adds a row, nor drops one, nor changes its message. */
  lemma DispatchKeepsMessages(s: State, a: Action)
    requires Inv(s) && Enabled(s, a) && !a.Stage?
    ensures Next(s, a).rows.Keys == s.rows.Keys
    ensures forall k :: k in s.rows ==>
              (Next(s, a).rows[k].target, Next(s, a).rows[k].pattern, Next(s, a).rows[k].payload)
              == (s.rows[k].target, s.rows[k].pattern, s.rows[k].payload)
  {
  }

  // ---------------------------------------------------------------- no event is lost

  /**
   * In every reachable state every durable row is still to be retried, or was
   * handed to the publisher with its present payload since it was last staged,
   * or was refused at least MAX_ATTEMPTS times.
   */
  lemma NoEventIsLost(s: State, k: Key)
    requires Reachable(s) && k in s.rows
    ensures k in s.stagedAt && k in s.lost && s.stagedAt[k] <= |s.log|
    ensures match s.rows[k].status
            case Pending => s.rows[k].attempts < MAX_ATTEMPTS
            case Sent => Delivered(s.log, s.stagedAt[k], k, s.rows[k])
            case Failed => s.rows[k].attempts == MAX_ATTEMPTS && ThrowsSince(s, k) == MAX_ATTEMPTS + s.lost[k]
  {
    ReachableInv(s);
    assert KeyOk(s, k);
  }

  // ---------------------------------------------------------------- settled rows

  /** `t` is `s` with more calls logged, none of them for `k`, and the same row for `k`. */
  ghost predicate Untouched(s: State, t: State, k: Key) {
    && k in t.rows && k in s.rows && t.rows[k] == s.rows[k]
    && k in t.stagedAt && k in s.stagedAt && t.stagedAt[k] == s.stagedAt[k]
    && s.log <= t.log
    && forall i :: |s.log| <= i < |t.log| ==> t.log[i].key != k
  }

  lemma SettledIsNotLoaded(s: State, k: Key)
    requires Inv(s) && k in s.rows && !s.rows[k].status.Pending?
    ensures k in s.stagedAt && (s.phase.Sweeping? ==> k !in s.phase.todo && k !in s.phase.dirty)
  {
    assert KeyOk(s, k);
  }

  /** A row that is no longer pending changes only when a failed one is staged again. */
  lemma StepLeavesSettled(s: State, a: Action, k: Key)
    requires Enabled(s, a) && k in s.rows && !s.rows[k].status.Pending?
    requires a.Stage? && a.key == k ==> s.rows[k].status.Sent?
    requires k in s.stagedAt && (s.phase.Sweeping? ==> k !in s.phase.todo && k !in s.phase.dirty)
    ensures Untouched(s, Next(s, a), k)
  {
  }

  lemma UntouchedTrans(s: State, m: State, t: State, k: Key)
    requires Untouched(s, m, k) && Untouched(m, t, k)
    ensures Untouched(s, t, k)
  {
    forall i | |s.log| <= i < |t.log| ensures t.log[i].key != k { if i < |m.log| { assert t.log[i] == m.log[i]; } }
  }
}
