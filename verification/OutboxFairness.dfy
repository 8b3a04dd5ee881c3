/** No starvation: newer rows, however many are staged, do not hold up an older one. */
module OutboxFairness {
  import opened Outbox
  import opened OutboxDrain

  /** The rows created at or before an instant. */
  function Upto(rows: Rows, limit: nat): Rows {
    map k | k in rows && rows[k].createdAt <= limit :: rows[k]
  }

  /** This staging inserts a newer row, queues a newer failed one again, or does nothing. */
  predicate StagesNewer(s: State, a: Action, limit: nat) {
    && a.Stage?
    && (if a.key in s.rows then s.rows[a.key].status.Failed? ==> s.rows[a.key].createdAt > limit else a.at > limit)
  }

  /** Any number of such stagings. */
  ghost predicate NewerStaged(s: State, acts: seq<Action>, t: State, limit: nat)
    decreases |acts|
  {
    if acts == [] then t == s
    else StagesNewer(s, acts[0], limit) && NewerStaged(Next(s, acts[0]), acts[1..], t, limit)
  }

  /** Some newer rows are staged, and then comes an undisturbed sweep. */
  ghost predicate Round(s: State, t: State, limit: nat) {
    exists acts, m :: NewerStaged(s, acts, m, limit) && SweepStep(m, t)
  }

  ghost predicate RoundAt(ss: seq<State>, i: nat, limit: nat) {
    i + 1 < |ss| && Round(ss[i], ss[i + 1], limit)
  }

  ghost predicate Rounds(ss: seq<State>, limit: nat) {
    |ss| > 0 && forall i :: 0 <= i < |ss| - 1 ==> RoundAt(ss, i, limit)
  }

  /** Newer stagings are invisible among the older rows. */
  lemma NewerStep(s: State, a: Action, limit: nat)
    requires StagesNewer(s, a, limit)
    ensures Upto(Next(s, a).rows, limit) == Upto(s.rows, limit)
  {
  }

  lemma {:induction false} NewerUnseen(s: State, acts: seq<Action>, t: State, limit: nat)
    requires NewerStaged(s, acts, t, limit)
    ensures Upto(t.rows, limit) == Upto(s.rows, limit)
    decreases |acts|
  {
    if acts != [] {
      NewerStep(s, acts[0], limit);
      NewerUnseen(Next(s, acts[0]), acts[1..], t, limit);
    }
  }

  // ---------------------------------------------------------------- a sweep seen among the older rows

  /** The oldest rows of a batch that are old enough: a prefix, as the batch is in order of age. */
  lemma OlderPrefix(rows: Rows, batch: seq<Key>, limit: nat) returns (n: nat)
    requires forall k :: k in batch ==> k in rows
    requires forall i, j :: 0 <= i < j < |batch| ==> rows[batch[i]].createdAt <= rows[batch[j]].createdAt
    ensures n <= |batch|
    ensures forall i :: 0 <= i < |batch| ==> (i < n <==> rows[batch[i]].createdAt <= limit)
  {
    n := 0;
    while n < |batch| && rows[batch[n]].createdAt <= limit
      invariant n <= |batch|
      invariant forall i :: 0 <= i < n ==> rows[batch[i]].createdAt <= limit
    {
      n := n + 1;
    }
  }

  /** That prefix is what the batch query would answer if there were only the older rows. */
  lemma PrefixIsBatch(rows: Rows, batch: seq<Key>, limit: nat, n: nat)
    requires IsBatch(rows, batch) && n <= |batch|
    requires forall i :: 0 <= i < |batch| ==> (i < n <==> rows[batch[i]].createdAt <= limit)
    ensures IsBatch(Upto(rows, limit), batch[..n])
  {
    var older := Upto(rows, limit);
    if n < |batch| { assert batch[n] in batch && rows[batch[n]].createdAt > limit; }
    forall k | k in older && Eligible(older[k]) && k !in batch[..n]
      ensures |batch[..n]| == MAX_BATCH && forall b :: b in batch[..n] ==> older[b].createdAt <= older[k].createdAt
    {
      assert k !in batch;
    }
  }

  lemma AttemptedAge(row: Row, v: Verdict)
    ensures Attempted(row, v.outcome, v.at).createdAt == row.createdAt
  {
  }

  /** One row after a sweep of all rows, and after the sweep of that prefix. */
  lemma RowSeen(rows: Rows, batch: seq<Key>, vs: seq<Verdict>, limit: nat, n: nat, k: Key)
    requires SweepInput(rows, batch, vs) && n <= |batch| && k in rows
    requires forall i :: 0 <= i < |batch| ==> (i < n <==> rows[batch[i]].createdAt <= limit)
    requires SweepInput(Upto(rows, limit), batch[..n], vs[..n])
    ensures var all, part := Swept(rows, batch, vs, |batch|), Swept(Upto(rows, limit), batch[..n], vs[..n], n);
            && k in all && all[k].createdAt == rows[k].createdAt
            && (k in Upto(rows, limit) ==> k in part && all[k] == part[k])
  {
    if k in batch {
      var i :| 0 <= i < |batch| && batch[i] == k;
      SweptKey(rows, batch, vs, |batch|, i);
      AttemptedAge(rows[k], vs[i]);
      if i < n { SweptKey(Upto(rows, limit), batch[..n], vs[..n], n, i); }
    } else {
      assert batch[..|batch|] == batch && batch[..n][..n] == batch[..n];
      SweptOther(rows, batch, vs, |batch|, k);
      if k in Upto(rows, limit) { SweptOther(Upto(rows, limit), batch[..n], vs[..n], n, k); }
    }
  }

  lemma SweptDomain(rows: Rows, batch: seq<Key>, vs: seq<Verdict>)
    requires SweepInput(rows, batch, vs)
    ensures Swept(rows, batch, vs, |batch|).Keys == rows.Keys
  {
    SweptAt(rows, batch, vs, |batch|);
  }

  lemma UptoIs(rows: Rows, all: Rows, part: Rows, limit: nat)
    requires all.Keys == rows.Keys && part.Keys == Upto(rows, limit).Keys
    requires forall k :: k in rows ==> all[k].createdAt == rows[k].createdAt && (k in part ==> all[k] == part[k])
    ensures Upto(all, limit) == part
  {
  }

  /** A sweep of all rows is, among the older ones, the sweep of that prefix. */
  lemma SweptUpto(rows: Rows, batch: seq<Key>, vs: seq<Verdict>, limit: nat, n: nat)
    requires SweepInput(rows, batch, vs) && n <= |batch|
    requires forall i :: 0 <= i < |batch| ==> (i < n <==> rows[batch[i]].createdAt <= limit)
    requires SweepInput(Upto(rows, limit), batch[..n], vs[..n])
    ensures Upto(Swept(rows, batch, vs, |batch|), limit) == Swept(Upto(rows, limit), batch[..n], vs[..n], n)
  {
    var all, part := Swept(rows, batch, vs, |batch|), Swept(Upto(rows, limit), batch[..n], vs[..n], n);
    SweptDomain(rows, batch, vs);
    SweptDomain(Upto(rows, limit), batch[..n], vs[..n]);
    forall k | k in rows ensures all[k].createdAt == rows[k].createdAt && (k in part ==> all[k] == part[k]) {
      RowSeen(rows, batch, vs, limit, n, k);
    }
    UptoIs(rows, all, part, limit);
  }

  lemma SweptSeen(rows: Rows, batch: seq<Key>, vs: seq<Verdict>, limit: nat)
    requires SweepInput(rows, batch, vs)
    ensures RowsStep(Upto(rows, limit), Upto(Swept(rows, batch, vs, |batch|), limit))
  {
    var n := OlderPrefix(rows, batch, limit);
    PrefixIsBatch(rows, batch, limit, n);
    SweptUpto(rows, batch, vs, limit, n);
    assert SweepInput(Upto(rows, limit), batch[..n], vs[..n]);
  }

  /** A round is, among the older rows, one sweep. */
  lemma RoundSeen(s: State, t: State, limit: nat)
    requires Round(s, t, limit)
    ensures RowsStep(Upto(s.rows, limit), Upto(t.rows, limit))
  {
    var acts, m :| NewerStaged(s, acts, m, limit) && SweepStep(m, t);
    NewerUnseen(s, acts, m, limit);
    var batch, vs :| SweepInput(m.rows, batch, vs) && t == SweepState(m, batch, vs);
    SweptSeen(m.rows, batch, vs, limit);
  }

  /**
   * Let r rows created at or before some instant be pending, and let any number of
   * newer rows be staged before every sweep: after ⌊2r/5⌋ + 10 sweeps none of the
   * r is pending, whatever the publisher does.
   */
  lemma OlderRowsDrain(ss: seq<State>, limit: nat, r: nat)
    requires Rounds(ss, limit) && RowsOk(ss[0].rows) && r == |PendingKeys(Upto(ss[0].rows, limit))|
             && |ss| > 2 * r / 5 + 10
    ensures PendingKeys(Upto(ss[2 * r / 5 + 10].rows, limit)) == {}
  {
    var rs := seq(|ss|, i requires 0 <= i < |ss| => Upto(ss[i].rows, limit));
    forall i | 0 <= i < |rs| - 1 ensures RowsAt(rs, i) {
      assert RoundAt(ss, i, limit);
      RoundSeen(ss[i], ss[i + 1], limit);
    }
    DrainRows(rs, r);
  }

  lemma {:induction false} RoundsKeepRow(ss: seq<State>, limit: nat, i: nat, k: Key)
    requires Rounds(ss, limit) && i < |ss| && k in Upto(ss[0].rows, limit)
    ensures k in Upto(ss[i].rows, limit)
  {
    if i > 0 {
      RoundsKeepRow(ss, limit, i - 1, k);
      assert RoundAt(ss, i - 1, limit);
      RoundSeen(ss[i - 1], ss[i], limit);
      RowsStepKeys(Upto(ss[i - 1].rows, limit), Upto(ss[i].rows, limit));
    }
  }

  lemma RowsStepKeys(rows: Rows, rows': Rows)
    requires RowsStep(rows, rows')
    ensures rows'.Keys == rows.Keys
  {
    var batch, vs :| SweepInput(rows, batch, vs) && rows' == Swept(rows, batch, vs, |batch|);
    SweptDomain(rows, batch, vs);
  }

  /** No row starves: with r pending rows at least as old as it, itself included, it is sent or failed by then. */
  lemma NoRowStarves(ss: seq<State>, k: Key, r: nat)
    requires |ss| > 0 && RowsOk(ss[0].rows) && k in ss[0].rows && Rounds(ss, ss[0].rows[k].createdAt)
    requires r == |PendingKeys(Upto(ss[0].rows, ss[0].rows[k].createdAt))| && |ss| > 2 * r / 5 + 10
    ensures k in ss[2 * r / 5 + 10].rows && !ss[2 * r / 5 + 10].rows[k].status.Pending?
  {
    var limit := ss[0].rows[k].createdAt;
    OlderRowsDrain(ss, limit, r);
    RoundsKeepRow(ss, limit, 2 * r / 5 + 10, k);
    var rows := Upto(ss[2 * r / 5 + 10].rows, limit);
    assert k !in PendingKeys(rows);
  }
}
