/** The dispatcher object and `stageOutboxEvent` as imperative code over the durable rows. */
module OutboxDispatcher {
  import opened Common
  import opened Outbox
  import opened OutboxDrain

  /** How many of the first `j` verdicts let the message through. */
  function Dispatched(vs: seq<Verdict>, j: nat): nat
    requires j <= |vs|
  {
    if j == 0 then 0 else Dispatched(vs, j - 1) + if vs[j - 1].outcome.Published? then 1 else 0
  }

  /** How many of the first `j` rows of the batch become failed for good. */
  function GivenUp(rows: Rows, batch: seq<Key>, vs: seq<Verdict>, j: nat): nat
    requires j <= |batch| == |vs| && forall k :: k in batch ==> k in rows
  {
    if j == 0 then 0
    else
      GivenUp(rows, batch, vs, j - 1)
      + if vs[j - 1].outcome.Threw? && rows[batch[j - 1]].attempts + 1 >= MAX_ATTEMPTS then 1 else 0
  }

  /** Where the loop of a sweep stands after `i` rows. */
  ghost predicate Progress(rows: Rows, batch: seq<Key>, vs: seq<Verdict>, i: nat,
                           copies: Rows, calls: seq<Publication>, dispatched: nat, failed: nat)
    requires i <= |batch| == |vs| && forall k :: k in batch ==> k in rows
  {
    && copies == Copies(rows, batch, vs, i) && calls == Calls(rows, batch, vs, i)
    && dispatched == Dispatched(vs, i) && failed == GivenUp(rows, batch, vs, i)
  }

  lemma Loaded(rows: Rows, batch: seq<Key>, vs: seq<Verdict>, i: nat)
    requires SweepInput(rows, batch, vs) && i < |batch|
    ensures batch[i] in Copies(rows, batch, vs, i) && batch[i] in rows
    ensures Copies(rows, batch, vs, i)[batch[i]] == rows[batch[i]] && rows[batch[i]].status.Pending?
  {
    CopiesStep(rows, batch, vs, i);
    assert batch[i] in batch;
  }

  /** One round of that loop. */
  lemma PublishRound(rows: Rows, batch: seq<Key>, vs: seq<Verdict>, i: nat,
                     copies: Rows, calls: seq<Publication>, dispatched: nat, failed: nat, row: Row)
    requires SweepInput(rows, batch, vs) && i < |batch|
             && Progress(rows, batch, vs, i, copies, calls, dispatched, failed)
    requires batch[i] in rows && row == Attempted(rows[batch[i]], vs[i].outcome, vs[i].at)
    ensures Progress(rows, batch, vs, i + 1, copies[batch[i] := row],
                     calls + [Publication(batch[i], rows[batch[i]].pattern, rows[batch[i]].payload, vs[i].outcome)],
                     dispatched + (if row.status.Sent? then 1 else 0), failed + (if row.status.Failed? then 1 else 0))
  {
    Loaded(rows, batch, vs, i);
    CopiesStep(rows, batch, vs, i);
  }

  /** The rows after `i` writes of a flush that makes them all, or only those in `written`. */
  function Flushed(rows: Rows, batch: seq<Key>, vs: seq<Verdict>, written: Option<set<Key>>, i: nat): Rows
    requires i <= |batch| == |vs| && forall k :: k in batch ==> k in rows
  {
    if written.None? then Swept(rows, batch, vs, i) else Partly(rows, batch, vs, written.value, i)
  }

  lemma FlushRound(rows: Rows, batch: seq<Key>, vs: seq<Verdict>, written: Option<set<Key>>, i: nat)
    requires SweepInput(rows, batch, vs) && i < |batch|
    ensures var k, copies, before := batch[i], Copies(rows, batch, vs, |batch|), Flushed(rows, batch, vs, written, i);
            && k in copies
            && Flushed(rows, batch, vs, written, i + 1)
               == if written.None? || k in written.value then before[k := copies[k]] else before
  {
    assert batch[i] in batch;
    SweptKey(rows, batch, vs, |batch|, i);
  }

  lemma {:induction false} CountDispatched(vs: seq<Verdict>, j: nat)
    requires j <= |vs|
    ensures Dispatched(vs, j) == |set i | 0 <= i < j && vs[i].outcome.Published?|
  {
    if j > 0 {
      CountDispatched(vs, j - 1);
      var sent := set i | 0 <= i < j - 1 && vs[i].outcome.Published?;
      assert (set i | 0 <= i < j && vs[i].outcome.Published?)
          == if vs[j - 1].outcome.Published? then sent + {j - 1} else sent;
    }
  }

  predicate GivesUp(rows: Rows, batch: seq<Key>, vs: seq<Verdict>, i: int) {
    0 <= i < |batch| && i < |vs| && batch[i] in rows && vs[i].outcome.Threw? && rows[batch[i]].attempts + 1 >= 10
  }

  lemma {:induction false} CountGivenUp(rows: Rows, batch: seq<Key>, vs: seq<Verdict>, j: nat)
    requires j <= |batch| == |vs| && forall k :: k in batch ==> k in rows
    ensures GivenUp(rows, batch, vs, j) == |set i | 0 <= i < j && GivesUp(rows, batch, vs, i)|
  {
    if j > 0 {
      CountGivenUp(rows, batch, vs, j - 1);
      var failed := set i | 0 <= i < j - 1 && GivesUp(rows, batch, vs, i);
      assert (set i | 0 <= i < j && GivesUp(rows, batch, vs, i))
          == if GivesUp(rows, batch, vs, j - 1) then failed + {j - 1} else failed;
    }
  }

  /** The counters a sweep returns are the numbers of rows of its batch that it has sent and given up. */
  lemma CountersTell(rows: Rows, batch: seq<Key>, vs: seq<Verdict>)
    requires SweepInput(rows, batch, vs)
    ensures var after := Swept(rows, batch, vs, |batch|);
            && after.Keys == rows.Keys
            && (forall i :: 0 <= i < |batch| ==> batch[i] in after)
            && Dispatched(vs, |vs|) == |set i | 0 <= i < |batch| && after[batch[i]].status.Sent?|
            && GivenUp(rows, batch, vs, |batch|) == |set i | 0 <= i < |batch| && after[batch[i]].status.Failed?|
  {
    var after := Swept(rows, batch, vs, |batch|);
    CountDispatched(vs, |vs|);
    CountGivenUp(rows, batch, vs, |batch|);
    SweptAt(rows, batch, vs, |batch|);
    forall i | 0 <= i < |batch|
      ensures batch[i] in after
      ensures after[batch[i]].status.Sent? <==> vs[i].outcome.Published?
      ensures after[batch[i]].status.Failed? <==> GivesUp(rows, batch, vs, i)
    {
      assert batch[i] in batch;
    }
    assert (set i | 0 <= i < |batch| && after[batch[i]].status.Sent?)
        == set i | 0 <= i < |batch| && vs[i].outcome.Published?;
    assert (set i | 0 <= i < |batch| && after[batch[i]].status.Failed?)
        == set i | 0 <= i < |batch| && GivesUp(rows, batch, vs, i);
  }

  class Dispatcher {
    var rows: Rows           // the durable collection
    var log: seq<Publication>
    var running: bool
    var shuttingDown: bool
    var timer: bool          // a sweep is scheduled
    ghost var stagedAt: map<Key, nat>
    ghost var lost: map<Key, nat>

    ghost function View(): State
      reads this
    {
      State(rows, Idle, log, stagedAt, lost)
    }

    /**
     * Between two method calls the object is a reachable idle state of the
     * protocol, and once it is shutting down no timer is armed.
     */
    ghost predicate Valid()
      reads this
    {
      Reachable(View()) && (shuttingDown ==> !timer)
    }

    constructor ()
      ensures Valid() && View() == EMPTY && !running && !shuttingDown && !timer
    {
      rows, log, running, shuttingDown, timer := map[], [], false, false, false;
      stagedAt, lost := map[], map[];
      new;
      assert Run(EMPTY, [], View());
    }

    /** Every sweep ends with this call; nothing resets `shuttingDown`, so after a shutdown no timer is armed again. */
    method Schedule()
      requires Valid()
      modifies this`timer
      ensures Valid() && timer == !shuttingDown
    {
      if shuttingDown { return; }
      timer := true;
    }

    method OnModuleDestroy()
      requires Valid()
      modifies this`shuttingDown, this`timer
      ensures Valid() && shuttingDown
    {
      shuttingDown := true;
      if timer { timer := false; }
    }

    /** The batch query. */
    method Find() returns (batch: seq<Key>)
      ensures IsBatch(rows, batch)
    {
      batch := [];
      var rest := set k | k in rows && Eligible(rows[k]);
      ghost var all := rest;
      while rest != {} && |batch| < MAX_BATCH
        invariant |batch| <= MAX_BATCH && Distinct(batch)
        invariant forall k :: k in all <==> k in rows && Eligible(rows[k])
        invariant rest == all - Keys(batch) && Keys(batch) <= all
        invariant forall i, j :: 0 <= i < j < |batch| ==> rows[batch[i]].createdAt <= rows[batch[j]].createdAt
        invariant forall b, k :: b in batch && k in rest ==> rows[b].createdAt <= rows[k].createdAt
        decreases rest
      {
        var k := Oldest(rest);
        assert k !in Keys(batch);
        assert Keys(batch + [k]) == Keys(batch) + {k};
        batch := batch + [k];
        rest := rest - {k};
      }
      forall k | k in batch ensures k in rows && Eligible(rows[k]) { assert k in Keys(batch); }
      forall k | k in rows && Eligible(rows[k]) && k !in batch ensures k in rest { assert k in all; }
    }

    method Oldest(keys: set<Key>) returns (k: Key)
      requires keys != {} && keys <= rows.Keys
      ensures k in keys && forall x :: x in keys ==> rows[k].createdAt <= rows[x].createdAt
    {
      k :| k in keys;
      var rest := keys - {k};
      while rest != {}
        invariant k in keys && rest <= keys
        invariant forall x :: x in keys - rest ==> rows[k].createdAt <= rows[x].createdAt
        decreases rest
      {
        var x :| x in rest;
        if rows[x].createdAt < rows[k].createdAt { k := x; }
        rest := rest - {x};
      }
    }

    /**
     * One sweep. `verdict(i)` is what the publisher does with the i-th row of
     * the batch; `written` is None when the flush succeeds, and otherwise the
     * rows that reached the database before the flush threw.
     */
    method Sweep(verdict: nat -> Verdict, written: Option<set<Key>>)
      returns (r: Result<(nat, nat), ()>, ghost batch: seq<Key>, ghost vs: seq<Verdict>)
      requires Valid()
      modifies this`rows, this`log, this`running, this`lost
      ensures Valid()
      ensures old(running) ==> r == Ok((0, 0)) && View() == old(View()) && running
      ensures !old(running) ==>
                && !running
                && SweepInput(old(rows), batch, vs)
                && (forall i :: 0 <= i < |vs| ==> vs[i] == verdict(i))
                && log == old(log) + Calls(old(rows), batch, vs, |batch|)
      ensures !old(running) && (written.None? || batch == []) ==>
                && View() == SweepState(old(View()), batch, vs)
                && r == Ok((Dispatched(vs, |vs|), GivenUp(old(rows), batch, vs, |batch|)))
      ensures !old(running) && written.Some? && batch != [] ==>
                r.Err? && View() == AbortedSweep(old(View()), batch, vs, written.value)
    {
      batch, vs := [], [];
      if running { return Ok((0, 0)), [], []; }
      running := true;
      ghost var s0 := View();
      r, batch, vs := SweepBody(verdict, written);
      if written.None? || batch == [] {
        SweepReachable(s0, batch, vs);
      } else {
        AbortedSweepReachable(s0, batch, vs, written.value);
        lost := AbortedSweep(s0, batch, vs, written.value).lost;
      }
      running := false;
    }

    /** What `sweep` does between setting and clearing `running`. */
    method SweepBody(verdict: nat -> Verdict, written: Option<set<Key>>)
      returns (r: Result<(nat, nat), ()>, ghost batch: seq<Key>, ghost vs: seq<Verdict>)
      modifies this`rows, this`log
      ensures SweepInput(old(rows), batch, vs) && forall i :: 0 <= i < |vs| ==> vs[i] == verdict(i)
      ensures log == old(log) + Calls(old(rows), batch, vs, |batch|)
      ensures written.None? || batch == [] ==>
                && rows == Swept(old(rows), batch, vs, |batch|)
                && r == Ok((Dispatched(vs, |vs|), GivenUp(old(rows), batch, vs, |batch|)))
      ensures written.Some? && batch != [] ==>
                r.Err? && rows == Partly(old(rows), batch, vs, written.value, |batch|)
    {
      var pending := Find();
      batch, vs := pending, seq(|pending|, i requires 0 <= i < |pending| => verdict(i));
      if |pending| == 0 {
        assert log == log + [];
        return Ok((0, 0)), batch, vs;
      }
      var dispatched, failed, copies := PublishAll(pending, verdict, vs);
      Flush(pending, copies, written, rows, vs);
      if written.Some? { return Err(()), batch, vs; }
      return Ok((dispatched, failed)), batch, vs;
    }

    /** The sweep's loop: publish every loaded row and update it in memory. */
    method PublishAll(pending: seq<Key>, verdict: nat -> Verdict, ghost vs: seq<Verdict>)
      returns (dispatched: nat, failed: nat, copies: Rows)
      requires SweepInput(rows, pending, vs) && forall i :: 0 <= i < |vs| ==> vs[i] == verdict(i)
      modifies this`log
      ensures log == old(log) + Calls(rows, pending, vs, |pending|)
      ensures copies == Copies(rows, pending, vs, |pending|)
      ensures dispatched == Dispatched(vs, |vs|) && failed == GivenUp(rows, pending, vs, |pending|)
    {
      ghost var rows0 := rows;
      copies := map k | k in pending && k in rows :: rows[k];
      dispatched, failed := 0, 0;
      var i := 0;
      ghost var calls: seq<Publication> := [];
      while i < |pending|
        invariant 0 <= i <= |pending| && log == old(log) + calls
        invariant Progress(rows0, pending, vs, i, copies, calls, dispatched, failed)
      {
        dispatched, failed, copies, calls :=
          PublishRow(rows0, pending, vs, i, verdict(i), copies, calls, dispatched, failed);
        i := i + 1;
      }
    }

    /** One round of the loop: the row is published, updated in memory, and counted. */
    method PublishRow(ghost rows0: Rows, pending: seq<Key>, ghost vs: seq<Verdict>, i: nat, v: Verdict,
                      copies: Rows, ghost calls: seq<Publication>, dispatched: nat, failed: nat)
      returns (dispatched': nat, failed': nat, copies': Rows, ghost calls': seq<Publication>)
      requires SweepInput(rows0, pending, vs) && i < |pending| && v == vs[i]
      requires Progress(rows0, pending, vs, i, copies, calls, dispatched, failed)
      modifies this`log
      ensures Progress(rows0, pending, vs, i + 1, copies', calls', dispatched', failed')
      ensures calls <= calls' && log == old(log) + calls'[|calls|..]
    {
      var k := pending[i];
      Loaded(rows0, pending, vs, i);
      var row := AttemptRow(k, copies[k], v);
      PublishRound(rows0, pending, vs, i, copies, calls, dispatched, failed, row);
      calls' := calls + [Publication(k, rows0[k].pattern, rows0[k].payload, v.outcome)];
      copies' := copies[k := row];
      dispatched' := if row.status.Sent? then dispatched + 1 else dispatched;
      failed' := if row.status.Failed? then failed + 1 else failed;
    }

    /** The publisher returns or throws, and the row is updated. */
    method AttemptRow(k: Key, loaded: Row, v: Verdict) returns (row: Row)
      modifies this`log
      ensures log == old(log) + [Publication(k, loaded.pattern, loaded.payload, v.outcome)]
      ensures row == Attempted(loaded, v.outcome, v.at)
    {
      log := log + [Publication(k, loaded.pattern, loaded.payload, v.outcome)];
      row := loaded;
      match v.outcome {
        case Published =>
          row := row.(status := Sent);
          row := row.(lastAttemptAt := Some(v.at));
          row := row.(attempts := row.attempts + 1);
        case Threw(message) =>
          row := row.(attempts := row.attempts + 1);
          row := row.(lastAttemptAt := Some(v.at));
          row := row.(lastError := Some(message));
          if row.attempts >= MAX_ATTEMPTS { row := row.(status := Failed); }
      }
    }

    /** `em.flush()`: one write per loaded row; when it throws, only some were made. */
    method Flush(pending: seq<Key>, copies: Rows, written: Option<set<Key>>, ghost rows0: Rows, ghost vs: seq<Verdict>)
      requires SweepInput(rows, pending, vs) && rows == rows0 && copies == Copies(rows, pending, vs, |pending|)
      modifies this`rows
      ensures written.None? ==> rows == Swept(rows0, pending, vs, |pending|)
      ensures written.Some? ==> rows == Partly(rows0, pending, vs, written.value, |pending|)
    {
      var i := 0;
      while i < |pending|
        invariant 0 <= i <= |pending|
        invariant rows == Flushed(rows0, pending, vs, written, i)
      {
        var k := pending[i];
        FlushRound(rows0, pending, vs, written, i);
        if written.None? || k in written.value {
          rows := rows[k := copies[k]];
        }
        i := i + 1;
      }
    }

    /** `stageOutboxEvent`, together with the caller's flush. */
    method StageOutboxEvent(key: Key, e: Staged, now: nat) returns (created: bool)
      requires Valid()
      modifies this`rows, this`stagedAt, this`lost
      ensures Valid() && View() == StageNext(old(View()), key, e, now)
      ensures created <==> key !in old(rows)
      ensures key in rows && rows - {key} == old(rows) - {key}
      ensures created ==> rows[key] == Row(e.target, e.pattern, e.payload, Pending, 0, now, None, None)
      ensures !created && old(rows)[key].status.Failed? ==>
                && rows[key].status.Pending? && rows[key].attempts == 0 && rows[key].lastError.None?
                && rows[key].payload == e.payload
                && rows[key].target == old(rows)[key].target && rows[key].pattern == old(rows)[key].pattern
                && rows[key].createdAt == old(rows)[key].createdAt
                && rows[key].lastAttemptAt == old(rows)[key].lastAttemptAt
      ensures !created && !old(rows)[key].status.Failed? ==> rows[key] == old(rows)[key]
    {
      ReachableByStep(View(), Stage(key, e, now));
      ghost var s := StageNext(View(), key, e, now);
      if key in rows {
        var existing := rows[key];
        if existing.status.Failed? {
          existing := existing.(status := Pending);
          existing := existing.(attempts := 0, lastError := None, payload := e.payload);
          rows := rows[key := existing];
        }
        created := false;
      } else {
        rows := rows[key := Row(e.target, e.pattern, e.payload, Pending, 0, now, None, None)];
        created := true;
      }
      stagedAt, lost := s.stagedAt, s.lost;
    }
  }
}
