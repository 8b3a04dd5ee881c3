/**
 * Whole sweeps: an undisturbed sweep as one transition, its equality with the
 * step-by-step protocol, and how many sweeps empty the outbox.
 */
module OutboxDrain {
  import opened Common
  import opened Outbox

  /** What the publisher does with one row of a batch, and when. */
  datatype Verdict = Verdict(outcome: Outcome, at: nat)

  ghost predicate SweepInput(rows: Rows, batch: seq<Key>, vs: seq<Verdict>) {
    IsBatch(rows, batch) && |vs| == |batch|
  }

  /** The rows after the first `j` of the batch were attempted and written. */
  function Swept(rows: Rows, batch: seq<Key>, vs: seq<Verdict>, j: nat): Rows
    requires j <= |batch| == |vs| && forall k :: k in batch ==> k in rows
  {
    if j == 0 then rows
    else Swept(rows, batch, vs, j - 1)[batch[j - 1] := Attempted(rows[batch[j - 1]], vs[j - 1].outcome, vs[j - 1].at)]
  }

  /** The first `j` publisher calls of a sweep. */
  function Calls(rows: Rows, batch: seq<Key>, vs: seq<Verdict>, j: nat): seq<Publication>
    requires j <= |batch| == |vs| && forall k :: k in batch ==> k in rows
  {
    if j == 0 then []
    else
      var k := batch[j - 1];
      Calls(rows, batch, vs, j - 1) + [Publication(k, rows[k].pattern, rows[k].payload, vs[j - 1].outcome)]
  }

  lemma {:induction false} SweptOther(rows: Rows, batch: seq<Key>, vs: seq<Verdict>, j: nat, k: Key)
    requires SweepInput(rows, batch, vs) && j <= |batch| && k in rows && k !in batch[..j]
    ensures Swept(rows, batch, vs, j).Keys == rows.Keys
    ensures Swept(rows, batch, vs, j)[k] == rows[k]
  {
    if j > 0 {
      assert batch[..j] == batch[..j - 1] + [batch[j - 1]];
      SweptOther(rows, batch, vs, j - 1, k);
    }
  }

  lemma {:induction false} SweptKey(rows: Rows, batch: seq<Key>, vs: seq<Verdict>, j: nat, i: nat)
    requires SweepInput(rows, batch, vs) && i < j <= |batch|
    ensures Swept(rows, batch, vs, j).Keys == rows.Keys
    ensures Swept(rows, batch, vs, j)[batch[i]] == Attempted(rows[batch[i]], vs[i].outcome, vs[i].at)
  {
    assert batch[i] in batch;
    if i < j - 1 {
      SweptKey(rows, batch, vs, j - 1, i);
      assert batch[i] != batch[j - 1];
    } else {
      assert batch[i] !in batch[..i];
      SweptOther(rows, batch, vs, i, batch[i]);
    }
  }

  /** What the first `j` rounds of a sweep do to every row. */
  lemma SweptAt(rows: Rows, batch: seq<Key>, vs: seq<Verdict>, j: nat)
    requires SweepInput(rows, batch, vs) && j <= |batch|
    ensures Swept(rows, batch, vs, j).Keys == rows.Keys
    ensures forall i :: 0 <= i < j ==>
              Swept(rows, batch, vs, j)[batch[i]] == Attempted(rows[batch[i]], vs[i].outcome, vs[i].at)
    ensures forall k :: k in rows && k !in batch[..j] ==> Swept(rows, batch, vs, j)[k] == rows[k]
  {
    if j > 0 { SweptKey(rows, batch, vs, j, 0); }
    forall i | 0 <= i < j
      ensures Swept(rows, batch, vs, j)[batch[i]] == Attempted(rows[batch[i]], vs[i].outcome, vs[i].at)
    {
      SweptKey(rows, batch, vs, j, i);
    }
    forall k | k in rows && k !in batch[..j] ensures Swept(rows, batch, vs, j)[k] == rows[k] {
      SweptOther(rows, batch, vs, j, k);
    }
  }

  // ---------------------------------------------------------------- one sweep is a run

  function SweepState(s: State, batch: seq<Key>, vs: seq<Verdict>): State
    requires |batch| == |vs| && forall k :: k in batch ==> k in s.rows
  {
    s.(rows := Swept(s.rows, batch, vs, |batch|), log := s.log + Calls(s.rows, batch, vs, |batch|))
  }

  function Attempts(vs: seq<Verdict>): seq<Action> {
    seq(|vs|, i requires 0 <= i < |vs| => Attempt(vs[i].outcome, vs[i].at))
  }

  function Flushes(batch: seq<Key>): seq<Action> {
    seq(|batch|, i requires 0 <= i < |batch| => FlushRow(batch[i]))
  }

  function SweepActions(batch: seq<Key>, vs: seq<Verdict>): seq<Action> {
    if batch == [] then [Fetch(batch)] else [Fetch(batch)] + (Attempts(vs) + (Flushes(batch) + [Finish]))
  }

  function Keys(batch: seq<Key>): set<Key> {
    set k | k in batch
  }

  function Copies(rows: Rows, batch: seq<Key>, vs: seq<Verdict>, j: nat): Rows
    requires j <= |batch| == |vs| && forall k :: k in batch ==> k in rows
  {
    var swept := Swept(rows, batch, vs, j);
    map k | k in batch && k in swept :: swept[k]
  }

  function AfterAttempts(s: State, batch: seq<Key>, vs: seq<Verdict>, j: nat): State
    requires j <= |batch| == |vs| && forall k :: k in batch ==> k in s.rows
  {
    s.(phase := Sweeping(batch[j..], Copies(s.rows, batch, vs, j), Keys(batch[..j])),
       log := s.log + Calls(s.rows, batch, vs, j))
  }

  function AfterFlushes(s: State, batch: seq<Key>, vs: seq<Verdict>, j: nat): State
    requires j <= |batch| == |vs| && forall k :: k in batch ==> k in s.rows
  {
    s.(phase := Sweeping([], Copies(s.rows, batch, vs, |batch|), Keys(batch[j..])),
       rows := Swept(s.rows, batch, vs, j),
       log := s.log + Calls(s.rows, batch, vs, |batch|))
  }

  lemma KeysStep(batch: seq<Key>, j: nat)
    requires j < |batch|
    ensures Keys(batch[..j + 1]) == Keys(batch[..j]) + {batch[j]}
  {
  }

  lemma CopiesStep(rows: Rows, batch: seq<Key>, vs: seq<Verdict>, j: nat)
    requires SweepInput(rows, batch, vs) && j < |batch|
    ensures batch[j] in Copies(rows, batch, vs, j)
    ensures Copies(rows, batch, vs, j)[batch[j]] == rows[batch[j]]
    ensures Copies(rows, batch, vs, j + 1)
            == Copies(rows, batch, vs, j)[batch[j] := Attempted(rows[batch[j]], vs[j].outcome, vs[j].at)]
  {
    SweptAt(rows, batch, vs, j);
    assert batch[j] !in batch[..j];
  }

  lemma AttemptStep(s: State, batch: seq<Key>, vs: seq<Verdict>, j: nat)
    requires SweepInput(s.rows, batch, vs) && j < |batch|
    ensures var a := Attempt(vs[j].outcome, vs[j].at);
            var m := AfterAttempts(s, batch, vs, j);
            Enabled(m, a) && Next(m, a) == AfterAttempts(s, batch, vs, j + 1)
  {
    var k := batch[j];
    CopiesStep(s.rows, batch, vs, j);
    assert batch[j..][0] == k && batch[j..][1..] == batch[j + 1..];
    KeysStep(batch, j);
    var p := Publication(k, s.rows[k].pattern, s.rows[k].payload, vs[j].outcome);
    assert s.log + Calls(s.rows, batch, vs, j) + [p] == s.log + Calls(s.rows, batch, vs, j + 1);
  }

  lemma FlushStep(s: State, batch: seq<Key>, vs: seq<Verdict>, j: nat)
    requires SweepInput(s.rows, batch, vs) && j < |batch|
    ensures var a := FlushRow(batch[j]);
            var m := AfterFlushes(s, batch, vs, j);
            Enabled(m, a) && Next(m, a) == AfterFlushes(s, batch, vs, j + 1)
  {
    var k := batch[j];
    assert k in batch;
    SweptKey(s.rows, batch, vs, |batch|, j);
    assert Copies(s.rows, batch, vs, |batch|)[k] == Attempted(s.rows[k], vs[j].outcome, vs[j].at);
    assert batch[j..] == [k] + batch[j + 1..];
    assert k !in batch[j + 1..];
    assert Keys(batch[j..]) - {k} == Keys(batch[j + 1..]);
  }

  lemma {:induction false} AttemptRun(s: State, batch: seq<Key>, vs: seq<Verdict>, j: nat)
    requires SweepInput(s.rows, batch, vs) && j <= |batch|
    ensures Run(AfterAttempts(s, batch, vs, j), Attempts(vs)[j..], AfterAttempts(s, batch, vs, |batch|))
    decreases |batch| - j
  {
    var acts := Attempts(vs)[j..];
    if j < |batch| {
      AttemptStep(s, batch, vs, j);
      AttemptRun(s, batch, vs, j + 1);
      assert acts[1..] == Attempts(vs)[j + 1..];
    }
  }

  lemma {:induction false} FlushRun(s: State, batch: seq<Key>, vs: seq<Verdict>, j: nat)
    requires SweepInput(s.rows, batch, vs) && j <= |batch|
    ensures Run(AfterFlushes(s, batch, vs, j), Flushes(batch)[j..], AfterFlushes(s, batch, vs, |batch|))
    decreases |batch| - j
  {
    var acts := Flushes(batch)[j..];
    if j < |batch| {
      FlushStep(s, batch, vs, j);
      FlushRun(s, batch, vs, j + 1);
      assert acts[1..] == Flushes(batch)[j + 1..];
    }
  }

  lemma FetchThenAttempts(s: State, batch: seq<Key>, vs: seq<Verdict>)
    requires s.phase.Idle? && SweepInput(s.rows, batch, vs) && batch != []
    ensures Next(s, Fetch(batch)) == AfterAttempts(s, batch, vs, 0)
  {
    assert batch[0..] == batch;
    assert Keys(batch[..0]) == {};
    assert Copies(s.rows, batch, vs, 0) == map k | k in batch && k in s.rows :: s.rows[k];
    assert s.log + [] == s.log;
  }

  lemma AttemptsThenFlushes(s: State, batch: seq<Key>, vs: seq<Verdict>)
    requires SweepInput(s.rows, batch, vs)
    ensures AfterAttempts(s, batch, vs, |batch|) == AfterFlushes(s, batch, vs, 0)
  {
    assert batch[0..] == batch == batch[..|batch|];
    assert batch[|batch|..] == [];
  }

  lemma FinishStep(s: State, batch: seq<Key>, vs: seq<Verdict>)
    requires s.phase.Idle? && SweepInput(s.rows, batch, vs) && batch != []
    ensures Run(AfterFlushes(s, batch, vs, |batch|), [Finish], SweepState(s, batch, vs))
  {
  }

  lemma EmptySweep(s: State)
    requires s.phase.Idle? && SweepInput(s.rows, [], [])
    ensures Run(s, [Fetch([])], SweepState(s, [], []))
  {
  }

  /** An undisturbed sweep of the protocol ends exactly in `SweepState`. */
  lemma SweepIsARun(s: State, batch: seq<Key>, vs: seq<Verdict>)
    requires s.phase.Idle? && SweepInput(s.rows, batch, vs)
    ensures Run(s, SweepActions(batch, vs), SweepState(s, batch, vs))
  {
    var t := SweepState(s, batch, vs);
    if batch == [] {
      EmptySweep(s);
    } else {
      var a0, f0 := AfterAttempts(s, batch, vs, 0), AfterFlushes(s, batch, vs, 0);
      FetchThenAttempts(s, batch, vs);
      AttemptsThenFlushes(s, batch, vs);
      AttemptRun(s, batch, vs, 0);
      assert Attempts(vs)[0..] == Attempts(vs);
      FlushRun(s, batch, vs, 0);
      assert Flushes(batch)[0..] == Flushes(batch);
      FinishStep(s, batch, vs);
      RunAppend(f0, Flushes(batch), AfterFlushes(s, batch, vs, |batch|), [Finish], t);
      RunAppend(a0, Attempts(vs), f0, Flushes(batch) + [Finish], t);
      RunCons(s, Fetch(batch), a0, Attempts(vs) + (Flushes(batch) + [Finish]), t);
    }
  }

  // ---------------------------------------------------------------- one sweep whose flush throws

  /** The rows when, of the first `j` writes of the flush, only those for `keep` were made. */
  function Partly(rows: Rows, batch: seq<Key>, vs: seq<Verdict>, keep: set<Key>, j: nat): Rows
    requires j <= |batch| == |vs| && forall k :: k in batch ==> k in rows
  {
    if j == 0 then rows
    else
      var before := Partly(rows, batch, vs, keep, j - 1);
      var k := batch[j - 1];
      if k in keep then before[k := Attempted(rows[k], vs[j - 1].outcome, vs[j - 1].at)] else before
  }

  function MidFlush(s: State, batch: seq<Key>, vs: seq<Verdict>, keep: set<Key>, j: nat): State
    requires j <= |batch| == |vs| && forall k :: k in batch ==> k in s.rows
  {
    s.(phase := Sweeping([], Copies(s.rows, batch, vs, |batch|), Keys(batch) - (Keys(batch[..j]) * keep)),
       rows := Partly(s.rows, batch, vs, keep, j),
       log := s.log + Calls(s.rows, batch, vs, |batch|))
  }

  /** The state after a sweep whose flush threw having written exactly the rows in `keep`. */
  function AbortedSweep(s: State, batch: seq<Key>, vs: seq<Verdict>, keep: set<Key>): State
    requires |batch| == |vs| && forall k :: k in batch ==> k in s.rows
  {
    var m := MidFlush(s, batch, vs, keep, |batch|);
    m.(phase := Idle, lost := map k | k in s.lost :: s.lost[k] + UnrecordedThrow(m.phase, k))
  }

  lemma MidFlushStep(s: State, batch: seq<Key>, vs: seq<Verdict>, keep: set<Key>, j: nat)
    requires SweepInput(s.rows, batch, vs) && j < |batch|
    ensures var m, n := MidFlush(s, batch, vs, keep, j), MidFlush(s, batch, vs, keep, j + 1);
            if batch[j] in keep then Enabled(m, FlushRow(batch[j])) && n == Next(m, FlushRow(batch[j])) else n == m
  {
    var k := batch[j];
    assert k in batch;
    SweptKey(s.rows, batch, vs, |batch|, j);
    KeysStep(batch, j);
    var written := Keys(batch[..j]) * keep;
    if k in keep {
      assert Keys(batch) - (written + {k}) == Keys(batch) - written - {k};
      assert Keys(batch[..j + 1]) * keep == Keys(batch[..j]) * keep + {k};
    } else {
      assert Keys(batch[..j + 1]) * keep == Keys(batch[..j]) * keep;
    }
  }

  lemma MidFlushStart(s: State, batch: seq<Key>, vs: seq<Verdict>, keep: set<Key>)
    requires SweepInput(s.rows, batch, vs)
    ensures MidFlush(s, batch, vs, keep, 0) == AfterAttempts(s, batch, vs, |batch|)
  {
    assert batch[..|batch|] == batch && batch[|batch|..] == [];
    assert Keys(batch[..0]) * keep == {};
    assert Keys(batch) - {} == Keys(batch);
  }

  lemma AfterAttemptsReachable(s: State, batch: seq<Key>, vs: seq<Verdict>)
    requires Reachable(s) && s.phase.Idle? && SweepInput(s.rows, batch, vs) && batch != []
    ensures Reachable(AfterAttempts(s, batch, vs, |batch|))
  {
    FetchThenAttempts(s, batch, vs);
    ReachableByStep(s, Fetch(batch));
    AttemptRun(s, batch, vs, 0);
    ReachableByRun(AfterAttempts(s, batch, vs, 0), Attempts(vs)[0..], AfterAttempts(s, batch, vs, |batch|));
  }

  lemma {:induction false} MidFlushReachable(s: State, batch: seq<Key>, vs: seq<Verdict>, keep: set<Key>, j: nat)
    requires Reachable(s) && s.phase.Idle? && SweepInput(s.rows, batch, vs) && batch != [] && j <= |batch|
    ensures Reachable(MidFlush(s, batch, vs, keep, j))
  {
    if j == 0 {
      AfterAttemptsReachable(s, batch, vs);
      MidFlushStart(s, batch, vs, keep);
    } else {
      MidFlushReachable(s, batch, vs, keep, j - 1);
      MidFlushStep(s, batch, vs, keep, j - 1);
      if batch[j - 1] in keep { ReachableByStep(MidFlush(s, batch, vs, keep, j - 1), FlushRow(batch[j - 1])); }
    }
  }

  /** A sweep whose flush throws half-way is a run of the protocol too. */
  lemma AbortedSweepReachable(s: State, batch: seq<Key>, vs: seq<Verdict>, keep: set<Key>)
    requires Reachable(s) && s.phase.Idle? && SweepInput(s.rows, batch, vs) && batch != []
    ensures Reachable(AbortedSweep(s, batch, vs, keep))
  {
    var m := MidFlush(s, batch, vs, keep, |batch|);
    MidFlushReachable(s, batch, vs, keep, |batch|);
    ReachableByStep(m, Abort);
    assert Next(m, Abort) == AbortedSweep(s, batch, vs, keep);
  }

  lemma SweepReachable(s: State, batch: seq<Key>, vs: seq<Verdict>)
    requires Reachable(s) && s.phase.Idle? && SweepInput(s.rows, batch, vs)
    ensures Reachable(SweepState(s, batch, vs))
  {
    SweepIsARun(s, batch, vs);
    ReachableByRun(s, SweepActions(batch, vs), SweepState(s, batch, vs));
  }

  // ---------------------------------------------------------------- sequences of sweeps

  ghost predicate SweepStep(s: State, t: State) {
    s.phase.Idle? && exists batch, vs :: SweepInput(s.rows, batch, vs) && t == SweepState(s, batch, vs)
  }

  ghost predicate SweepAt(ss: seq<State>, i: nat) {
    i + 1 < |ss| && SweepStep(ss[i], ss[i + 1])
  }

  /** Consecutive undisturbed sweeps with nothing staged in between. */
  ghost predicate Sweeps(ss: seq<State>) {
    |ss| > 0 && forall i :: 0 <= i < |ss| - 1 ==> SweepAt(ss, i)
  }

  function PendingKeys(rows: Rows): set<Key> {
    set k | k in rows && rows[k].status.Pending?
  }

  /** The attempts pending rows have left, as pairs: |Slots| is the sum of (10 - attempts). */
  function Slots(rows: Rows): set<(Key, int)> {
    set k, i | k in rows && 0 <= i < MAX_ATTEMPTS && rows[k].status.Pending? && rows[k].attempts <= i :: (k, i)
  }

  predicate RowsOk(rows: Rows) {
    forall k :: k in rows ==> RowOk(rows[k])
  }

  lemma SweepKeepsInv(s: State, t: State)
    requires Inv(s) && SweepStep(s, t)
    ensures Inv(t)
  {
    var batch, vs :| SweepInput(s.rows, batch, vs) && t == SweepState(s, batch, vs);
    SweepIsARun(s, batch, vs);
    RunKeepsInv(s, SweepActions(batch, vs), t);
  }

  /** What one sweep does to every row. */
  lemma SweepRows(rows: Rows, batch: seq<Key>, vs: seq<Verdict>)
    requires SweepInput(rows, batch, vs) && RowsOk(rows)
    ensures var after := Swept(rows, batch, vs, |batch|);
            && after.Keys == rows.Keys && RowsOk(after)
            && (forall k :: k in rows && k !in batch ==> after[k] == rows[k])
            && (forall k :: k in batch ==> !after[k].status.Pending? || after[k].attempts == rows[k].attempts + 1)
  {
    var after := Swept(rows, batch, vs, |batch|);
    SweptAt(rows, batch, vs, |batch|);
    assert batch[..|batch|] == batch;
    forall k | k in rows
      ensures RowOk(after[k])
      ensures k in batch ==> !after[k].status.Pending? || after[k].attempts == rows[k].attempts + 1
    {
      if k in batch {
        var i :| 0 <= i < |batch| && batch[i] == k;
        assert after[k] == Attempted(rows[k], vs[i].outcome, vs[i].at);
      }
    }
  }

  lemma {:induction false} DistinctCount<T>(s: seq<T>)
    requires Distinct(s)
    ensures |set x | x in s| == |s|
  {
    if s == [] {
      assert (set x | x in s) == {};
    } else {
      var n := |s| - 1;
      DistinctCount(s[..n]);
      assert s == s[..n] + [s[n]];
      assert (set x | x in s) == (set x | x in s[..n]) + {s[n]};
      assert s[n] !in s[..n];
    }
  }

  lemma SubsetCount<T>(a: set<T>, b: set<T>)
    requires a <= b
    ensures |a| <= |b|
  {
    assert b == a + (b - a);
  }

  /** A sweep uses up at least one remaining attempt of every row of its batch. */
  lemma SweepSpends(rows: Rows, batch: seq<Key>, vs: seq<Verdict>)
    requires SweepInput(rows, batch, vs) && RowsOk(rows)
    ensures var after := Swept(rows, batch, vs, |batch|);
            && PendingKeys(after) <= PendingKeys(rows)
            && |Slots(after)| + |batch| <= |Slots(rows)|
  {
    var after := Swept(rows, batch, vs, |batch|);
    SweepRows(rows, batch, vs);
    var spent := set k | k in batch :: (k, rows[k].attempts as int);
    SpentCount(rows, batch);
    assert spent <= Slots(rows);
    assert Slots(after) <= Slots(rows) - spent;
    SubsetCount(Slots(after), Slots(rows) - spent);
  }

  lemma {:induction false} SpentCount(rows: Rows, batch: seq<Key>)
    requires Distinct(batch) && forall k :: k in batch ==> k in rows
    ensures |set k | k in batch :: (k, rows[k].attempts as int)| == |batch|
  {
    var spent := set k | k in batch :: (k, rows[k].attempts as int);
    if batch == [] {
      assert spent == {};
    } else {
      var n := |batch| - 1;
      SpentCount(rows, batch[..n]);
      assert batch == batch[..n] + [batch[n]];
      var last := (batch[n], rows[batch[n]].attempts as int);
      var rest := set k | k in batch[..n] :: (k, rows[k].attempts as int);
      assert spent == rest + {last};
      assert batch[n] !in batch[..n];
    }
  }

  /** The slots of the given rows. */
  ghost function SlotsOf(rows: Rows, keys: set<Key>): set<(Key, int)>
    requires keys <= rows.Keys
  {
    set k, i | k in keys && 0 <= i < MAX_ATTEMPTS && rows[k].attempts <= i :: (k, i)
  }

  /** The slots one row can have. */
  ghost function OwnSlots(x: Key): (s: set<(Key, int)>)
    ensures |s| <= MAX_ATTEMPTS
    ensures forall i :: 0 <= i < MAX_ATTEMPTS ==> (x, i) in s
  {
    {(x, 0), (x, 1), (x, 2), (x, 3), (x, 4), (x, 5), (x, 6), (x, 7), (x, 8), (x, 9)}
  }

  lemma SlotsOfOne(rows: Rows, keys: set<Key>, x: Key)
    requires keys <= rows.Keys && x in keys
    ensures |SlotsOf(rows, keys)| <= |SlotsOf(rows, keys - {x})| + MAX_ATTEMPTS
  {
    var covered := SlotsOf(rows, keys - {x}) + OwnSlots(x);
    forall p | p in SlotsOf(rows, keys) ensures p in covered {
      if p.0 == x { assert (x, p.1) in OwnSlots(x); }
    }
    SubsetCount(SlotsOf(rows, keys), covered);
  }

  /** At most MAX_ATTEMPTS slots a row. */
  lemma {:induction false} SlotsBound(rows: Rows, keys: set<Key>)
    requires keys <= rows.Keys
    ensures |SlotsOf(rows, keys)| <= MAX_ATTEMPTS * |keys|
    decreases keys
  {
    if keys == {} {
      assert SlotsOf(rows, keys) == {};
    } else {
      var x :| x in keys;
      SlotsBound(rows, keys - {x});
      SlotsOfOne(rows, keys, x);
    }
  }

  /** A batch that is not full holds every pending row. */
  lemma SmallBacklog(rows: Rows, batch: seq<Key>)
    requires RowsOk(rows) && IsBatch(rows, batch)
    ensures |batch| == MAX_BATCH || PendingKeys(rows) == Keys(batch)
    ensures |PendingKeys(rows)| < MAX_BATCH ==> PendingKeys(rows) == Keys(batch)
    ensures |PendingKeys(rows)| >= MAX_BATCH ==> |batch| == MAX_BATCH
  {
    DistinctCount(batch);
    assert Keys(batch) <= PendingKeys(rows);
    SubsetCount(Keys(batch), PendingKeys(rows));
    if |batch| < MAX_BATCH {
      assert PendingKeys(rows) <= Keys(batch);
    }
  }

  ghost predicate Older(rows: Rows, n: nat) {
    forall k :: k in PendingKeys(rows) ==> rows[k].attempts >= n
  }

  lemma OlderStep(rows: Rows, rows': Rows, batch: seq<Key>, n: nat)
    requires Older(rows, n) && PendingKeys(rows') <= PendingKeys(rows) == Keys(batch)
    requires forall k :: k in batch && k in rows && k in rows' ==>
             !rows'[k].status.Pending? || rows'[k].attempts == rows[k].attempts + 1
    ensures Older(rows', n + 1)
  {
  }

  lemma OldRowsAreDone(rows: Rows, n: nat)
    requires RowsOk(rows) && Older(rows, n) && n >= MAX_ATTEMPTS
    ensures PendingKeys(rows) == {}
  {
  }

  // ---------------------------------------------------------------- the bound, on the rows alone

  ghost predicate RowsStep(rows: Rows, rows': Rows) {
    exists batch, vs :: SweepInput(rows, batch, vs) && rows' == Swept(rows, batch, vs, |batch|)
  }

  ghost predicate RowsAt(rs: seq<Rows>, i: nat) {
    i + 1 < |rs| && RowsStep(rs[i], rs[i + 1])
  }

  ghost predicate RowSweeps(rs: seq<Rows>) {
    |rs| > 0 && forall i :: 0 <= i < |rs| - 1 ==> RowsAt(rs, i)
  }

  lemma FullNext(rows: Rows, rows': Rows)
    requires RowsStep(rows, rows') && RowsOk(rows) && |PendingKeys(rows)| >= MAX_BATCH
    ensures RowsOk(rows') && |Slots(rows')| + MAX_BATCH <= |Slots(rows)|
  {
    var batch, vs :| SweepInput(rows, batch, vs) && rows' == Swept(rows, batch, vs, |batch|);
    SmallBacklog(rows, batch);
    SweepSpends(rows, batch, vs);
    SweepRows(rows, batch, vs);
  }

  /** The full-batch stage: after `i` sweeps that all met a full batch, 25·i slots are gone. */
  lemma {:induction false} FullStage(rs: seq<Rows>, i: nat)
    requires RowSweeps(rs) && RowsOk(rs[0]) && i < |rs|
    requires forall j :: 0 <= j < i ==> |PendingKeys(rs[j])| >= MAX_BATCH
    ensures RowsOk(rs[i]) && |Slots(rs[i])| + MAX_BATCH * i <= |Slots(rs[0])|
  {
    if i > 0 {
      FullStage(rs, i - 1);
      assert RowsAt(rs, i - 1);
      FullNext(rs[i - 1], rs[i]);
    }
  }

  /** Fewer than MAX_BATCH rows are pending, each after at least `n` attempts. */
  ghost predicate Small(rows: Rows, n: nat) {
    RowsOk(rows) && |PendingKeys(rows)| < MAX_BATCH && Older(rows, n)
  }

  lemma SmallNext(rows: Rows, rows': Rows, n: nat)
    requires RowsStep(rows, rows') && Small(rows, n)
    ensures Small(rows', n + 1)
  {
    var batch, vs :| SweepInput(rows, batch, vs) && rows' == Swept(rows, batch, vs, |batch|);
    SmallBacklog(rows, batch);
    SweepSpends(rows, batch, vs);
    SweepRows(rows, batch, vs);
    SubsetCount(PendingKeys(rows'), PendingKeys(rows));
    OlderStep(rows, rows', batch, n);
  }

  /** The last stage: once fewer than 25 rows are pending, every sweep ages them all. */
  lemma {:induction false} SmallStage(rs: seq<Rows>, m: nat, i: nat)
    requires RowSweeps(rs) && m + i < |rs| && Small(rs[m], 0)
    ensures Small(rs[m + i], i)
  {
    if i > 0 {
      SmallStage(rs, m, i - 1);
      assert RowsAt(rs, m + i - 1);
      SmallNext(rs[m + i - 1], rs[m + i], i - 1);
    }
  }

  /** Some sweep among the first ⌊2n/5⌋ meets fewer than 25 pending rows. */
  lemma BacklogShrinks(rs: seq<Rows>, n: nat) returns (m: nat)
    requires RowSweeps(rs) && RowsOk(rs[0]) && n == |PendingKeys(rs[0])| && |rs| > 2 * n / 5 + 1
    ensures m <= 2 * n / 5 && RowsOk(rs[m]) && |PendingKeys(rs[m])| < MAX_BATCH
  {
    m := 0;
    while m <= 2 * n / 5 && |PendingKeys(rs[m])| >= MAX_BATCH
      invariant m <= 2 * n / 5 + 1
      invariant forall j :: 0 <= j < m ==> |PendingKeys(rs[j])| >= MAX_BATCH
    {
      m := m + 1;
    }
    FullStage(rs, m);
    SlotsBound(rs[0], PendingKeys(rs[0]));
    assert Slots(rs[0]) == SlotsOf(rs[0], PendingKeys(rs[0]));
  }

  lemma DrainRows(rs: seq<Rows>, n: nat)
    requires RowSweeps(rs) && RowsOk(rs[0]) && n == |PendingKeys(rs[0])| && |rs| > 2 * n / 5 + 10
    ensures PendingKeys(rs[2 * n / 5 + 10]) == {}
  {
    var m := BacklogShrinks(rs, n);
    var i := 2 * n / 5 + 10 - m;
    SmallStage(rs, m, i);
    OldRowsAreDone(rs[m + i], i);
  }

  /**
   * With n rows pending and nothing new staged, ⌊2n/5⌋ + 10 sweeps leave no
   * pending row, whatever the publisher does.
   */
  lemma DrainBound(ss: seq<State>, n: nat)
    requires Sweeps(ss) && RowsOk(ss[0].rows) && n == |PendingKeys(ss[0].rows)| && |ss| > 2 * n / 5 + 10
    ensures PendingKeys(ss[2 * n / 5 + 10].rows) == {}
  {
    var rs := seq(|ss|, i requires 0 <= i < |ss| => ss[i].rows);
    forall i | 0 <= i < |rs| - 1 ensures RowsAt(rs, i) { assert SweepAt(ss, i); }
    DrainRows(rs, n);
  }

  /** Consecutive sweeps during which the publisher never throws. */
  ghost predicate QuietSweep(s: State, t: State) {
    s.phase.Idle? && exists batch: seq<Key>, vs: seq<Verdict> ::
      SweepInput(s.rows, batch, vs) && t == SweepState(s, batch, vs) && forall i :: 0 <= i < |vs| ==>
          vs[i].outcome.Published?
  }

  ghost predicate QuietAt(ss: seq<State>, i: nat) {
    i + 1 < |ss| && QuietSweep(ss[i], ss[i + 1])
  }

  ghost predicate QuietSweeps(ss: seq<State>) {
    |ss| > 0 && forall i :: 0 <= i < |ss| - 1 ==> QuietAt(ss, i)
  }

  /** A quiet sweep keeps the message of a row, and moves it at most from pending to sent. */
  lemma QuietRow(s: State, t: State, k: Key)
    requires QuietSweep(s, t) && k in s.rows && !s.rows[k].status.Failed?
    ensures k in t.rows && !t.rows[k].status.Failed?
    ensures t.rows[k].pattern == s.rows[k].pattern && t.rows[k].payload == s.rows[k].payload
    ensures t.stagedAt == s.stagedAt
  {
    var batch: seq<Key>, vs: seq<Verdict> :|
      && SweepInput(s.rows, batch, vs) && t == SweepState(s, batch, vs)
      && forall i :: 0 <= i < |vs| ==> vs[i].outcome.Published?;
    assert batch[..|batch|] == batch;
    if k in batch {
      var i :| 0 <= i < |batch| && batch[i] == k;
      SweptKey(s.rows, batch, vs, |batch|, i);
    } else {
      SweptOther(s.rows, batch, vs, |batch|, k);
    }
  }

  lemma QuietKeepsInv(s: State, t: State)
    requires QuietSweep(s, t) && Inv(s)
    ensures Inv(t)
  {
    assert SweepStep(s, t);
    SweepKeepsInv(s, t);
  }

  lemma {:induction false} QuietRunKeepsInv(ss: seq<State>, i: nat)
    requires QuietSweeps(ss) && Inv(ss[0]) && i < |ss|
    ensures Inv(ss[i])
  {
    if i > 0 {
      QuietRunKeepsInv(ss, i - 1);
      assert QuietAt(ss, i - 1);
      QuietKeepsInv(ss[i - 1], ss[i]);
    }
  }

  /** What a row that has not failed keeps while sweeps are quiet. */
  ghost predicate StillDue(s: State, t: State, k: Key) {
    && k in s.rows && k in t.rows && !t.rows[k].status.Failed? && t.stagedAt == s.stagedAt
    && t.rows[k].pattern == s.rows[k].pattern && t.rows[k].payload == s.rows[k].payload
  }

  lemma {:induction false} QuietStage(ss: seq<State>, i: nat, k: Key)
    requires QuietSweeps(ss) && i < |ss| && k in ss[0].rows && !ss[0].rows[k].status.Failed?
    ensures StillDue(ss[0], ss[i], k)
  {
    if i > 0 {
      QuietStage(ss, i - 1, k);
      assert QuietAt(ss, i - 1);
      QuietRow(ss[i - 1], ss[i], k);
    }
  }

  /**
   * While the publisher does not throw, every row that has not already failed
   * is published, with the message it was staged with, within the drain bound.
   */
  lemma QuietDrainDelivers(ss: seq<State>, n: nat, k: Key)
    requires QuietSweeps(ss) && Inv(ss[0]) && n == |PendingKeys(ss[0].rows)| && |ss| > 2 * n / 5 + 10
    requires k in ss[0].rows && !ss[0].rows[k].status.Failed?
    ensures var t := ss[2 * n / 5 + 10];
            && k in t.rows && k in t.stagedAt && t.rows[k].status.Sent?
            && Delivered(t.log, t.stagedAt[k], k, ss[0].rows[k])
  {
    forall i | 0 <= i < |ss| - 1 ensures SweepAt(ss, i) {
      assert QuietAt(ss, i);
    }
    forall j | j in ss[0].rows ensures RowOk(ss[0].rows[j]) { assert KeyOk(ss[0], j); }
    DrainBound(ss, n);
    var t := ss[2 * n / 5 + 10];
    QuietStage(ss, 2 * n / 5 + 10, k);
    QuietRunKeepsInv(ss, 2 * n / 5 + 10);
    assert KeyOk(t, k) && k !in PendingKeys(t.rows);
    DeliveredSame(t.log, t.stagedAt[k], k, t.rows[k], ss[0].rows[k]);
  }

  lemma DeliveredSame(log: seq<Publication>, from: nat, k: Key, a: Row, b: Row)
    requires Delivered(log, from, k, a) && a.pattern == b.pattern && a.payload == b.payload
    ensures Delivered(log, from, k, b)
  {
  }
}
