/** The migration runner: a record of applied ids, an ordered loop, and crashes anywhere in it. */
module Migrations {
  import opened Common

  /**
   * `up` is the whole script; `partial(d, d')` says that an `up` that started at
   * `d` and failed, or whose process died, may leave `d'`.
   */
  datatype Migration<!D> = Migration(id: string, up: D -> D, partial: (D, D) -> bool)

  /**
   * Running again after a failed or a complete `up` gives what one complete `up`
   * would have given: what the runner asks of its scripts.
   */
  ghost predicate RetrySafe<D(!new)>(m: Migration<D>) {
    && (forall d, d' :: m.partial(d, d') ==> m.up(d') == m.up(d))
    && (forall d :: m.up(m.up(d)) == m.up(d))
  }

  ghost predicate Plan<D(!new)>(ms: seq<Migration<D>>) {
    && (forall i :: 0 <= i < |ms| ==> RetrySafe(ms[i]))
    && (forall i, j :: 0 <= i < j < |ms| ==> ms[i].id != ms[j].id)
  }

  function Ids<D>(ms: seq<Migration<D>>): seq<string> {
    seq(|ms|, i requires 0 <= i < |ms| => ms[i].id)
  }

  /** The database after the first `k` migrations, applied once each and in order. */
  function Clean<D>(ms: seq<Migration<D>>, d0: D, k: nat): D
    requires k <= |ms|
  {
    if k == 0 then d0 else ms[k - 1].up(Clean(ms, d0, k - 1))
  }

  // ---------------------------------------------------------------- the protocol

  /**
   * `Looping`: about to treat migration `i`. `Ran`: its `up` has returned and
   * its record is not yet written. `seen` is the snapshot of recorded ids.
   */
  datatype Phase =
    | Idle
    | Looping(seen: set<string>, i: nat, applied: nat, skipped: nat)
    | Ran(seen: set<string>, i: nat, applied: nat, skipped: nat)

  datatype State<D> = State(data: D, recorded: seq<string>, phase: Phase)

  datatype Action<D> =
    | Start
    | Skip
    | Up
    | UpFails(left: D)  // it threw, or the process died inside it
    | Record
    | Die               // between two of the above, or the record was refused
    | Finish

  ghost predicate Enabled<D>(ms: seq<Migration<D>>, s: State<D>, a: Action<D>) {
    match a
    case Start => s.phase.Idle?
    case Skip => s.phase.Looping? && s.phase.i < |ms| && ms[s.phase.i].id in s.phase.seen
    case Up => s.phase.Looping? && s.phase.i < |ms| && ms[s.phase.i].id !in s.phase.seen
    case UpFails(left) =>
      s.phase.Looping? && s.phase.i < |ms| && ms[s.phase.i].id !in s.phase.seen && ms[s.phase.i].partial(s.data, left)
    case Record => s.phase.Ran? && s.phase.i < |ms|
    case Die => !s.phase.Idle?
    case Finish => s.phase.Looping? && s.phase.i >= |ms|
  }

  function Recorded(recorded: seq<string>): set<string> {
    set id | id in recorded
  }

  ghost function Next<D>(ms: seq<Migration<D>>, s: State<D>, a: Action<D>): State<D>
    requires Enabled(ms, s, a)
  {
    match a
    case Start => s.(phase := Looping(Recorded(s.recorded), 0, 0, 0))
    case Skip => s.(phase := Looping(s.phase.seen, s.phase.i + 1, s.phase.applied, s.phase.skipped + 1))
    case Up => s.(data := ms[s.phase.i].up(s.data),
        phase := Ran(s.phase.seen, s.phase.i, s.phase.applied, s.phase.skipped))
    case UpFails(left) => s.(data := left, phase := Idle)
    case Record =>
      s.(recorded := s.recorded + [ms[s.phase.i].id],
         phase := Looping(s.phase.seen, s.phase.i + 1, s.phase.applied + 1, s.phase.skipped))
    case Die => s.(phase := Idle)
    case Finish => s.(phase := Idle)
  }

  ghost predicate Reaches<D>(ms: seq<Migration<D>>, s: State<D>, acts: seq<Action<D>>, t: State<D>)
    decreases |acts|
  {
    if acts == [] then t == s
    else Enabled(ms, s, acts[0]) && Reaches(ms, Next(ms, s, acts[0]), acts[1..], t)
  }

  // ---------------------------------------------------------------- the invariant

  /** The data is that of the first `k` migrations, possibly with the next one half done. */
  ghost predicate Near<D>(ms: seq<Migration<D>>, d0: D, k: nat, d: D)
    requires k <= |ms|
  {
    d == Clean(ms, d0, k) || (k < |ms| && ms[k].up(d) == Clean(ms, d0, k + 1))
  }

  ghost predicate IsPrefix<D>(ms: seq<Migration<D>>, recorded: seq<string>) {
    |recorded| <= |ms| && forall i :: 0 <= i < |recorded| ==> recorded[i] == ms[i].id
  }

  /** The snapshot holds the first so many ids; the loop has passed them, or has none to add yet. */
  ghost predicate Snapshot<D>(ms: seq<Migration<D>>, recorded: seq<string>, seen: set<string>, i: nat, applied: nat) {
    var k0 := |recorded| - applied;
    && 0 <= k0 <= |ms|
    && (forall j :: 0 <= j < |ms| ==> (ms[j].id in seen <==> j < k0))
    && (if i < k0 then applied == 0 else i == |recorded|)
  }

  ghost predicate Inv<D>(ms: seq<Migration<D>>, d0: D, s: State<D>) {
    && IsPrefix(ms, s.recorded)
    && (match s.phase
        case Idle => Near(ms, d0, |s.recorded|, s.data)
        case Looping(seen, i, applied, skipped) =>
          && Near(ms, d0, |s.recorded|, s.data)
          && i <= |ms| && applied + skipped == i
          && Snapshot(ms, s.recorded, seen, i, applied)
        case Ran(seen, i, applied, skipped) =>
          && i == |s.recorded| < |ms| && applied + skipped == i
          && s.data == Clean(ms, d0, i + 1)
          && Snapshot(ms, s.recorded, seen, i, applied)
          && ms[i].id !in seen)
  }

  lemma StartKeepsInv<D(!new)>(ms: seq<Migration<D>>, d0: D, s: State<D>)
    requires Plan(ms) && Inv(ms, d0, s) && s.phase.Idle?
    ensures Inv(ms, d0, Next(ms, s, Start))
  {
  }

  /** Where the loop stands on a migration that is not in the snapshot, exactly its predecessors are recorded. */
  lemma AtTheFrontier<D(!new)>(ms: seq<Migration<D>>, s: State<D>)
    requires IsPrefix(ms, s.recorded) && s.phase.Looping? && s.phase.i < |ms| && ms[s.phase.i].id !in s.phase.seen
    requires Snapshot(ms, s.recorded, s.phase.seen, s.phase.i, s.phase.applied)
    ensures s.phase.i == |s.recorded|
  {
  }

  lemma UpGivesClean<D(!new)>(ms: seq<Migration<D>>, d0: D, k: nat, d: D)
    requires Plan(ms) && k < |ms| && Near(ms, d0, k, d)
    ensures ms[k].up(d) == Clean(ms, d0, k + 1)
  {
  }

  lemma SkipKeepsInv<D(!new)>(ms: seq<Migration<D>>, d0: D, s: State<D>)
    requires Plan(ms) && Inv(ms, d0, s) && Enabled(ms, s, Skip)
    ensures Inv(ms, d0, Next(ms, s, Skip))
  {
  }

  lemma RecordKeepsInv<D(!new)>(ms: seq<Migration<D>>, d0: D, s: State<D>)
    requires Plan(ms) && Inv(ms, d0, s) && Enabled(ms, s, Record)
    ensures Inv(ms, d0, Next(ms, s, Record))
  {
  }

  lemma StepKeepsInv<D(!new)>(ms: seq<Migration<D>>, d0: D, s: State<D>, a: Action<D>)
    requires Plan(ms) && Inv(ms, d0, s) && Enabled(ms, s, a)
    ensures Inv(ms, d0, Next(ms, s, a))
  {
    match a
    case Start => StartKeepsInv(ms, d0, s);
    case Skip => SkipKeepsInv(ms, d0, s);
    case Up =>
      AtTheFrontier(ms, s);
      UpGivesClean(ms, d0, s.phase.i, s.data);
    case UpFails(left) =>
      AtTheFrontier(ms, s);
      UpGivesClean(ms, d0, s.phase.i, s.data);
    case Record => RecordKeepsInv(ms, d0, s);
    case Die =>
      if s.phase.Ran? {
        var k := |s.recorded|;
        assert RetrySafe(ms[k]);
        assert ms[k].up(s.data) == ms[k].up(Clean(ms, d0, k));
      }
    case Finish =>
  }

  lemma {:induction false} RunKeepsInv<D(!new)>(ms: seq<Migration<D>>, d0: D, s: State<D>, acts: seq<Action<D>>,
      t: State<D>)
    requires Plan(ms) && Inv(ms, d0, s) && Reaches(ms, s, acts, t)
    ensures Inv(ms, d0, t)
    decreases |acts|
  {
    if acts != [] {
      StepKeepsInv(ms, d0, s, acts[0]);
      RunKeepsInv(ms, d0, Next(ms, s, acts[0]), acts[1..], t);
    }
  }

  // ---------------------------------------------------------------- what every history of runs guarantees

  /** The record is always a prefix of the list. */
  lemma RecordIsAPrefix<D(!new)>(ms: seq<Migration<D>>, d0: D, acts: seq<Action<D>>, t: State<D>)
    requires Plan(ms) && Reaches(ms, State(d0, [], Idle), acts, t)
    ensures t.recorded <= Ids(ms)
  {
    RunKeepsInv(ms, d0, State(d0, [], Idle), acts, t);
  }

  /** A migration is started only when exactly the ones before it are recorded. */
  lemma PredecessorsAreRecorded<D(!new)>(ms: seq<Migration<D>>, d0: D, acts: seq<Action<D>>, t: State<D>)
    requires Plan(ms) && Reaches(ms, State(d0, [], Idle), acts, t)
    requires t.phase.Looping? && t.phase.i < |ms| && ms[t.phase.i].id !in t.phase.seen
    ensures t.recorded == Ids(ms)[..t.phase.i]
  {
    RunKeepsInv(ms, d0, State(d0, [], Idle), acts, t);
    AtTheFrontier(ms, t);
  }

  /**
   * After any sequence of crashed, failed and complete runs, a run that
   * completes leaves the database of one uninterrupted application in order,
   * every id recorded, and a report that adds up.
   */
  lemma CompleteRunConverges<D(!new)>(ms: seq<Migration<D>>, d0: D, acts: seq<Action<D>>, t: State<D>)
    requires Plan(ms) && Reaches(ms, State(d0, [], Idle), acts, t) && Enabled(ms, t, Finish)
    ensures t.data == Clean(ms, d0, |ms|) && t.recorded == Ids(ms)
    ensures t.phase.applied + t.phase.skipped == |ms|
  {
    RunKeepsInv(ms, d0, State(d0, [], Idle), acts, t);
  }

  // ---------------------------------------------------------------- the runner

  /** What happens to one migration of a run. */
  datatype Fate<D> = Works | UpThrows(left: D) | InsertThrows

  class DbMigrateTask<D(!new)> {
    var data: D
    var recorded: seq<string>

    ghost function View(phase: Phase): State<D>
      reads this
    {
      State(data, recorded, phase)
    }

    constructor (data: D)
      ensures View(Idle) == State(data, [], Idle)
    {
      this.data, this.recorded := data, [];
    }

    /** The snapshot tells apart exactly the migrations before and after the recorded ones. */
    method LoadAppliedIds(ghost ms: seq<Migration<D>>) returns (ids: set<string>)
      requires Plan(ms) && IsPrefix(ms, recorded)
      ensures ids == Recorded(recorded)
      ensures forall i :: 0 <= i < |ms| ==> (ms[i].id in ids <==> i < |recorded|)
    {
      ids := set id | id in recorded;
      forall i | 0 <= i < |ms| ensures ms[i].id in ids <==> i < |recorded| {
        if i < |recorded| { assert recorded[i] in ids; } else { NotRecorded(ms, recorded, i); }
      }
    }

    /**
     * One run of the migrations. `fate(i, d)` says what happens to migration `i` when it
     * is started on `d`. On failure the run stops at that migration and names it.
     */
    method Run(ms: seq<Migration<D>>, fate: (nat, D) -> Fate<D>, ghost d0: D) returns (r: Result<(nat, nat), string>)
      requires Plan(ms) && Inv(ms, d0, View(Idle))
      requires forall i: nat, d, left :: i < |ms| && fate(i, d) == UpThrows(left) ==> ms[i].partial(d, left)
      modifies this
      ensures Inv(ms, d0, View(Idle)) && old(recorded) <= recorded
      ensures r.Ok? ==>
                && data == Clean(ms, d0, |ms|) && recorded == Ids(ms)
                && r.value == (|ms| - |old(recorded)|, |old(recorded)|)
      ensures r.Err? ==> |recorded| < |ms| && r.error == ms[|recorded|].id
    {
      StartKeepsInv(ms, d0, View(Idle));
      var applied := LoadAppliedIds(ms);
      var appliedCount, skippedCount := 0, 0;
      var i := 0;
      ghost var before := recorded;
      while i < |ms|
        invariant 0 <= i <= |ms| && IsPrefix(ms, before) && before <= recorded
        invariant Inv(ms, d0, View(Looping(applied, i, appliedCount, skippedCount)))
        invariant forall j :: 0 <= j < |ms| ==> (ms[j].id in applied <==> j < |before|)
        invariant skippedCount == (if i < |before| then i else |before|)
      {
        if ms[i].id in applied {
          SkipKeepsInv(ms, d0, View(Looping(applied, i, appliedCount, skippedCount)));
          skippedCount := skippedCount + 1;
        } else {
          var ok := Apply(ms, fate, i, d0, applied, appliedCount, skippedCount);
          if !ok { return Err(ms[i].id); }
          appliedCount := appliedCount + 1;
        }
        i := i + 1;
      }
      r := Ok((appliedCount, skippedCount));
    }

    /** The body of the loop for a migration that is not recorded: run it, then record it. */
    method Apply(ms: seq<Migration<D>>, fate: (nat, D) -> Fate<D>, i: nat, ghost d0: D, ghost seen: set<string>,
        ghost applied: nat, ghost skipped: nat)
      returns (ok: bool)
      requires Plan(ms) && i < |ms| && ms[i].id !in seen && Inv(ms, d0, View(Looping(seen, i, applied, skipped)))
      requires forall left :: fate(i, data) == UpThrows(left) ==> ms[i].partial(data, left)
      modifies this
      ensures ok ==> recorded == old(recorded) + [ms[i].id]
      ensures ok ==> Inv(ms, d0, View(Looping(seen, i + 1, applied + 1, skipped)))
      ensures !ok ==> recorded == old(recorded) && i == |recorded| && Inv(ms, d0, View(Idle))
    {
      ghost var s := View(Looping(seen, i, applied, skipped));
      AtTheFrontier(ms, s);
      var f := fate(i, data);
      if f.UpThrows? {
        StepKeepsInv(ms, d0, s, UpFails(f.left));
        data := f.left;
        return false;
      }
      StepKeepsInv(ms, d0, s, Up);
      s := Next(ms, s, Up);
      data := ms[i].up(data);
      if f.InsertThrows? {
        StepKeepsInv(ms, d0, s, Die);
        return false;
      }
      StepKeepsInv(ms, d0, s, Record);
      recorded := recorded + [ms[i].id];
      return true;
    }
  }

  lemma NotRecorded<D(!new)>(ms: seq<Migration<D>>, recorded: seq<string>, i: nat)
    requires Plan(ms) && IsPrefix(ms, recorded) && |recorded| <= i < |ms|
    ensures ms[i].id !in Recorded(recorded)
  {
  }

  // ---------------------------------------------------------------- the list of migrations

  /** What a migration file exports; None if it lacks an id or an `up`. */
  type Modules<!D> = string -> Option<Migration<D>>

  /** `loadMigrations` after the directory has been listed: a file without the required exports is skipped. */
  function Loaded<D>(files: seq<string>, exports: Modules<D>): seq<Migration<D>> {
    if files == [] then []
    else
      var m := exports(files[|files| - 1]);
      Loaded(files[..|files| - 1], exports) + if m.Some? then [m.value] else []
  }

  /**
   * `out` lists the exports of exactly the files that have them, in the order of
   * the files: `at[n]` is the position of the file that gave `out[n]`.
   */
  ghost predicate InFileOrder<D>(files: seq<string>, exports: Modules<D>, out: seq<Migration<D>>, at: seq<nat>) {
    && |at| == |out|
    && (forall n :: 0 <= n < |at| ==> at[n] < |files| && exports(files[at[n]]).Some?)
    && (forall n :: 0 <= n < |at| ==> exports(files[at[n]]).value == out[n])
    && (forall m, n :: 0 <= m < n < |at| ==> at[m] < at[n])
    && (forall j :: 0 <= j < |files| && exports(files[j]).Some? ==> exists n :: 0 <= n < |at| && at[n] == j)
  }

  /** One more file at the end of the list. */
  lemma FileAdded<D>(files: seq<string>, exports: Modules<D>, out: seq<Migration<D>>, at: seq<nat>, file: string)
    requires InFileOrder(files, exports, out, at)
    ensures exports(file).Some? ==> InFileOrder(files + [file], exports, out + [exports(file).value], at + [|files|])
    ensures exports(file).None? ==> InFileOrder(files + [file], exports, out, at)
  {
    var all := files + [file];
    var at' := if exports(file).Some? then at + [|files|] else at;
    forall j | 0 <= j < |all| && exports(all[j]).Some? ensures exists n :: 0 <= n < |at'| && at'[n] == j {
      if j < |files| {
        var n :| 0 <= n < |at| && at[n] == j;
        assert at'[n] == j;
      } else {
        assert at'[|at|] == j;
      }
    }
  }

  lemma {:induction false} LoadedInOrder<D>(files: seq<string>, exports: Modules<D>) returns (at: seq<nat>)
    ensures InFileOrder(files, exports, Loaded(files, exports), at)
  {
    at := [];
    if files != [] {
      var rest, file := files[..|files| - 1], files[|files| - 1];
      at := LoadedInOrder(rest, exports);
      FileAdded(rest, exports, Loaded(rest, exports), at, file);
      assert files == rest + [file];
      if exports(file).Some? { at := at + [|rest|]; }
    }
  }

  method LoadMigrations<D>(files: seq<string>, exports: Modules<D>) returns (out: seq<Migration<D>>, ghost at: seq<nat>)
    ensures InFileOrder(files, exports, out, at)
    ensures out == Loaded(files, exports)
  {
    out := [];
    var i := 0;
    while i < |files|
      invariant 0 <= i <= |files| && out == Loaded(files[..i], exports)
    {
      var m := exports(files[i]);
      assert files[..i + 1][..i] == files[..i];
      if m.Some? { out := out + [m.value]; }
      i := i + 1;
    }
    assert files[..|files|] == files;
    at := LoadedInOrder(files, exports);
  }

  /** The default order of `Array.prototype.sort` on strings, by character code. */
  predicate Less(a: string, b: string) {
    b != "" && (a == "" || a[0] < b[0] || (a[0] == b[0] && Less(a[1..], b[1..])))
  }

  lemma {:induction false} LessTotal(a: string, b: string)
    ensures a == b || Less(a, b) || Less(b, a)
    ensures !(Less(a, b) && Less(b, a)) && !Less(a, a)
  {
    if a != "" && b != "" && a[0] == b[0] {
      LessTotal(a[1..], b[1..]);
      assert a == [a[0]] + a[1..] && b == [b[0]] + b[1..];
    }
    if a != "" { LessTotal(a[1..], a[1..]); }
  }

  lemma {:induction false} LessTransitive(a: string, b: string, c: string)
    requires Less(a, b) && Less(b, c)
    ensures Less(a, c)
  {
    if a != "" && a[0] == b[0] == c[0] { LessTransitive(a[1..], b[1..], c[1..]); }
  }

  /** A name is smaller exactly if it is a proper prefix, or has the smaller character where they first differ. */
  lemma {:induction false} LessIff(a: string, b: string)
    ensures Less(a, b) <==>
              exists k :: 0 <= k <= |a| && k < |b| && a[..k] == b[..k] && (k == |a| || a[k] < b[k])
  {
    if a != "" && b != "" && a[0] == b[0] {
      LessIff(a[1..], b[1..]);
      if k :| && 0 <= k <= |a[1..]| && k < |b[1..]| && a[1..][..k] == b[1..][..k]
              && (k == |a[1..]| || a[1..][k] < b[1..][k])
      {
        assert a[..k + 1] == [a[0]] + a[1..][..k] && b[..k + 1] == [b[0]] + b[1..][..k];
      }
      if k :| 0 <= k <= |a| && k < |b| && a[..k] == b[..k] && (k == |a| || a[k] < b[k]) {
        assert k > 0;
        assert a[1..][..k - 1] == a[..k][1..] && b[1..][..k - 1] == b[..k][1..];
      }
    } else {
      if Less(a, b) { assert a[..0] == b[..0]; }
      forall k | 0 < k <= |a| && k < |b| ensures a[..k] != b[..k] { assert a[..k][0] == a[0] && b[..k][0] == b[0]; }
    }
  }

  ghost predicate Increasing(files: seq<string>) {
    forall i, j :: 0 <= i < j < |files| ==> Less(files[i], files[j])
  }

  /** What sorting a directory's file names gives: all of them, each before the next. */
  ghost predicate Listing(files: seq<string>, dir: set<string>) {
    && (forall f :: f in files <==> f in dir)
    && forall i :: 0 < i < |files| ==> Less(files[i - 1], files[i])
  }

  lemma {:induction false} ListingIncreases(files: seq<string>, dir: set<string>, i: nat, j: nat)
    requires Listing(files, dir) && i < j < |files|
    ensures Less(files[i], files[j])
  {
    if i < j - 1 {
      ListingIncreases(files, dir, i, j - 1);
      LessTransitive(files[i], files[j - 1], files[j]);
    }
  }

  /**
   * The directory alone fixes the outcome: two jobs on the same directory load
   * the same list, and complete runs of them, after whatever crashed and failing
   * runs each has had, leave the same database and the same record.
   */
  lemma DirectoryFixesTheOutcome<D(!new)>(dir: set<string>, exports: Modules<D>, d0: D,
                                          a: seq<string>, actsA: seq<Action<D>>, ta: State<D>,
                                          b: seq<string>, actsB: seq<Action<D>>, tb: State<D>)
    requires Listing(a, dir) && Listing(b, dir) && Plan(Loaded(a, exports))
    requires Reaches(Loaded(a, exports), State(d0, [], Idle), actsA, ta) && Enabled(Loaded(a, exports), ta, Finish)
    requires Reaches(Loaded(b, exports), State(d0, [], Idle), actsB, tb) && Enabled(Loaded(b, exports), tb, Finish)
    ensures Loaded(a, exports) == Loaded(b, exports)
    ensures ta.data == tb.data == Clean(Loaded(a, exports), d0, |Loaded(a, exports)|)
    ensures ta.recorded == tb.recorded == Ids(Loaded(a, exports))
  {
    forall i, j | 0 <= i < j < |a| ensures Less(a[i], a[j]) { ListingIncreases(a, dir, i, j); }
    forall i, j | 0 <= i < j < |b| ensures Less(b[i], b[j]) { ListingIncreases(b, dir, i, j); }
    ListingIsUnique(a, b);
    CompleteRunConverges(Loaded(a, exports), d0, actsA, ta);
    CompleteRunConverges(Loaded(b, exports), d0, actsB, tb);
  }

  predicate ExportsId<D>(files: seq<string>, exports: Modules<D>, k: int, id: string) {
    0 <= k < |files| && exports(files[k]).Some? && exports(files[k]).value.id == id
  }

  /** The ids of the first `i` migrations are those exported by the files before the file of the next one. */
  lemma RecordedBefore<D(!new)>(files: seq<string>, exports: Modules<D>, out: seq<Migration<D>>, at: seq<nat>,
                                i: nat, id: string)
    requires InFileOrder(files, exports, out, at) && i < |out|
    ensures id in Ids(out)[..i] <==> exists k :: 0 <= k < at[i] && ExportsId(files, exports, k, id)
  {
    if id in Ids(out)[..i] {
      var n :| 0 <= n < i && Ids(out)[..i][n] == id;
      assert at[n] < at[i] && ExportsId(files, exports, at[n], id);
    }
    if exists k :: 0 <= k < at[i] && ExportsId(files, exports, k, id) {
      var k :| 0 <= k < at[i] && ExportsId(files, exports, k, id);
      var n :| 0 <= n < |at| && at[n] == k;
      BeforeOnlyIfSmaller(at, n, i);
      assert Ids(out)[..i][n] == id;
    }
  }

  lemma BeforeOnlyIfSmaller(at: seq<nat>, n: nat, i: nat)
    requires (forall m, n :: 0 <= m < n < |at| ==> at[m] < at[n]) && n < |at| && i < |at| && at[n] < at[i]
    ensures n < i
  {
  }

  /** In a sorted listing the files before one are exactly those with a smaller name. */
  lemma BeforeIsLess(files: seq<string>, dir: set<string>, j: nat, f: string)
    requires Listing(files, dir) && j < |files|
    ensures f in files[..j] <==> f in dir && Less(f, files[j])
  {
    if f in files[..j] {
      var k :| 0 <= k < j && files[k] == f;
      ListingIncreases(files, dir, k, j);
    }
    if f in dir && Less(f, files[j]) {
      var k :| 0 <= k < |files| && files[k] == f;
      LessTotal(f, files[j]);
      if k > j { ListingIncreases(files, dir, j, k); }
    }
  }

  /**
   * Files are applied in the order of their names: when the migration of a file
   * starts, whatever crashed and failed before, exactly those of the files with a
   * smaller name that export what is required are recorded.
   */
  lemma SmallerFilesAreRecorded<D(!new)>(dir: set<string>, files: seq<string>, exports: Modules<D>, d0: D,
                                         acts: seq<Action<D>>, t: State<D>) returns (file: string)
    requires Listing(files, dir) && Plan(Loaded(files, exports))
    requires Reaches(Loaded(files, exports), State(d0, [], Idle), acts, t)
    requires Enabled(Loaded(files, exports), t, Up)
    ensures file in dir && exports(file) == Some(Loaded(files, exports)[t.phase.i])
    ensures forall id :: id in t.recorded
              <==> exists f :: f in dir && Less(f, file) && exports(f).Some? && exports(f).value.id == id
  {
    var ms := Loaded(files, exports);
    var at := LoadedInOrder(files, exports);
    PredecessorsAreRecorded(ms, d0, acts, t);
    var j := at[t.phase.i];
    file := files[j];
    assert file in files;
    forall id ensures id in t.recorded
        <==> exists f :: f in dir && Less(f, file) && exports(f).Some? && exports(f).value.id == id
    {
      RecordedBefore(files, exports, ms, at, t.phase.i, id);
      RecordedByName(files, dir, exports, j, id);
    }
  }

  lemma RecordedByName<D(!new)>(files: seq<string>, dir: set<string>, exports: Modules<D>, j: nat, id: string)
    requires Listing(files, dir) && j < |files|
    ensures (exists k :: 0 <= k < j && ExportsId(files, exports, k, id))
            <==> exists f :: f in dir && Less(f, files[j]) && exports(f).Some? && exports(f).value.id == id
  {
    if exists k :: 0 <= k < j && ExportsId(files, exports, k, id) {
      var k :| 0 <= k < j && ExportsId(files, exports, k, id);
      assert files[k] in files[..j];
      BeforeIsLess(files, dir, j, files[k]);
    }
    if exists f :: f in dir && Less(f, files[j]) && exports(f).Some? && exports(f).value.id == id {
      var f :| f in dir && Less(f, files[j]) && exports(f).Some? && exports(f).value.id == id;
      BeforeIsLess(files, dir, j, f);
      var k :| 0 <= k < j && files[..j][k] == f;
      assert ExportsId(files, exports, k, id);
    }
  }

  /** There is one sorted listing of a set of names. */
  lemma {:induction false} ListingIsUnique(a: seq<string>, b: seq<string>)
    requires Increasing(a) && Increasing(b) && forall f :: f in a <==> f in b
    ensures a == b
  {
    SameMembersEmpty(a, b);
    SameMembersEmpty(b, a);
    if a != [] {
      assert a[0] in b && b[0] in a;
      FirstIsLeast(a, b[0]);
      FirstIsLeast(b, a[0]);
      LessTotal(a[0], b[0]);
      var f0 := a[0];
      forall f ensures f in a[1..] <==> f in b[1..] { TailMembers(a, f); TailMembers(b, f); }
      ListingIsUnique(a[1..], b[1..]);
      assert a == [f0] + a[1..] && b == [f0] + b[1..];
    }
  }

  lemma SameMembersEmpty(a: seq<string>, b: seq<string>)
    requires forall f :: f in a <==> f in b
    ensures a != [] ==> b != []
  {
    if a != [] { assert a[0] in a; }
  }

  lemma FirstIsLeast(files: seq<string>, f: string)
    requires Increasing(files) && f in files
    ensures f == files[0] || Less(files[0], f)
  {
  }

  lemma TailMembers(files: seq<string>, f: string)
    requires Increasing(files) && files != []
    ensures f in files[1..] <==> f in files && f != files[0]
  {
    if f in files[1..] {
      var i :| 0 <= i < |files| - 1 && files[1..][i] == f;
      LessTotal(files[0], files[i + 1]);
    }
    if f in files && f != files[0] {
      var i :| 0 <= i < |files| && files[i] == f;
      assert files[1..][i - 1] == f;
    }
  }
}
