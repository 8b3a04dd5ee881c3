/** The real publisher behind the outbox, and what a row marked sent then means. */
module EventPublishing {
  import opened Outbox
  import opened OutboxDrain
  import opened OutboxRetries

  /** The event bus as `publishEvent` meets it. */
  datatype Bus = NotWired | Answers(accepted: bool) | Throws(message: string)

  /** `publishEvent`: a missing bus is skipped, an answer is not looked at, an exception is logged. */
  function PublishEvent(bus: Bus): Outcome {
    match bus
    case NotWired => Published
    case Answers(_) => Published
    case Throws(_) => Published
  }

  predicate HandedOver(bus: Bus) {
    bus == Answers(true)
  }

  /** Every publisher call of the run went through `publishEvent`. */
  ghost predicate Real(acts: seq<Action>) {
    forall a :: a in acts && a.Attempt? ==> exists bus :: a.outcome == PublishEvent(bus)
  }

  // ---------------------------------------------------------------- the failure branch is dead

  predicate NeverRefused(row: Row) {
    row.lastError.None? && ((row.status.Pending? && row.attempts == 0) || (row.status.Sent? && row.attempts == 1))
  }

  /** A loaded entity is as in the database, or sent. */
  ghost predicate QuietInv(s: State) {
    && Shape(s)
    && (forall k :: k in s.rows ==> NeverRefused(s.rows[k]))
    && (forall k :: k in s.lost ==> s.lost[k] == 0)
    && (s.phase.Sweeping? ==>
          && (forall k :: k in s.phase.copies ==> NeverRefused(s.phase.copies[k]))
          && (forall k :: k in s.phase.todo && k in s.phase.copies ==> s.phase.copies[k].status.Pending?)
          && (forall k :: k in s.phase.dirty && k in s.phase.copies ==> s.phase.copies[k].status.Sent?))
  }

  lemma AttemptKeepsQuiet(s: State, at: nat)
    requires QuietInv(s) && Enabled(s, Attempt(Published, at))
    ensures QuietInv(AttemptNext(s, Published, at))
  {
    StepKeepsShape(s, Attempt(Published, at));
    assert s.phase.todo == [s.phase.todo[0]] + s.phase.todo[1..];
  }

  lemma StepKeepsQuiet(s: State, a: Action)
    requires QuietInv(s) && Enabled(s, a) && (a.Attempt? ==> a.outcome == Published)
    ensures QuietInv(Next(s, a))
  {
    if a.Attempt? { AttemptKeepsQuiet(s, a.at); } else { StepKeepsShape(s, a); }
  }

  lemma {:induction false} RunKeepsQuiet(s: State, acts: seq<Action>, t: State)
    requires QuietInv(s) && Run(s, acts, t) && Real(acts)
    ensures QuietInv(t)
    decreases |acts|
  {
    if acts != [] {
      assert acts[0] in acts;
      StepKeepsQuiet(s, acts[0]);
      assert forall a :: a in acts[1..] ==> a in acts;
      RunKeepsQuiet(Next(s, acts[0]), acts[1..], t);
    }
  }

  /**
   * With the real publisher nothing is ever refused: over any run, crashes
   * included, no row fails, records an error, or is attempted twice on record.
   */
  lemma RealPublisherNeverFails(acts: seq<Action>, s: State, k: Key)
    requires Run(EMPTY, acts, s) && Real(acts) && k in s.rows
    ensures s.rows[k].lastError.None? && k in s.lost && s.lost[k] == 0
    ensures s.rows[k].attempts == if s.rows[k].status.Sent? then 1 else 0
    ensures !s.rows[k].status.Failed?
  {
    RunKeepsQuiet(EMPTY, acts, s);
  }

  // ---------------------------------------------------------------- "sent" is the last word

  /** Whatever happens later, a sent row is neither changed nor attempted again. */
  lemma {:induction false} SentIsFinal(s: State, acts: seq<Action>, t: State, k: Key)
    requires Inv(s) && Run(s, acts, t) && k in s.rows && s.rows[k].status.Sent?
    ensures Untouched(s, t, k)
    decreases |acts|
  {
    if acts == [] {
      SettledIsNotLoaded(s, k);
    } else {
      var m := Next(s, acts[0]);
      StepKeepsInv(s, acts[0]);
      SettledIsNotLoaded(s, k);
      StepLeavesSettled(s, acts[0], k);
      SentIsFinal(m, acts[1..], t, k);
      UntouchedTrans(s, m, t, k);
    }
  }

  /** `bus(i)` is what the i-th publisher call met. Some call for the row since it was staged was taken. */
  ghost predicate Taken(s: State, bus: nat -> Bus, k: Key)
    requires k in s.stagedAt
  {
    exists i :: s.stagedAt[k] <= i < |s.log| && s.log[i].key == k && HandedOver(bus(i))
  }

  /** Every call for the row since it was staged met a bus that did not take it. */
  ghost predicate AlwaysRefused(s: State, bus: nat -> Bus, k: Key)
    requires k in s.stagedAt
  {
    forall i :: s.stagedAt[k] <= i < |s.log| && s.log[i].key == k ==> !HandedOver(bus(i))
  }

  /** No continuation of the run ever hands the row's message over. */
  ghost predicate LostForGood(s: State, bus: nat -> Bus, k: Key)
    requires k in s.stagedAt
  {
    forall acts, t :: Run(s, acts, t) ==> k in t.stagedAt && !Taken(t, bus, k)
  }

  lemma SentWasCalled(s: State, k: Key)
    requires Reachable(s) && k in s.rows && s.rows[k].status.Sent?
    ensures k in s.stagedAt && exists i :: s.stagedAt[k] <= i < |s.log| && s.log[i].key == k
  {
    ReachableInv(s);
    assert KeyOk(s, k);
    var i :| s.stagedAt[k] <= i < |s.log|
        && s.log[i] == Publication(k, s.rows[k].pattern, s.rows[k].payload, Published);
    assert s.log[i].key == k;
  }

  lemma UntouchedTaken(s: State, t: State, bus: nat -> Bus, k: Key)
    requires Untouched(s, t, k)
    ensures Taken(t, bus, k) ==> Taken(s, bus, k)
  {
    if Taken(t, bus, k) {
      var i :| t.stagedAt[k] <= i < |t.log| && t.log[i].key == k && HandedOver(bus(i));
      assert s.log[i] == t.log[i];
    }
  }

  lemma RefusedStaysRefused(s: State, acts: seq<Action>, t: State, bus: nat -> Bus, k: Key)
    requires Reachable(s) && Run(s, acts, t) && k in s.rows && s.rows[k].status.Sent?
    requires k in s.stagedAt && AlwaysRefused(s, bus, k)
    ensures k in t.stagedAt && !Taken(t, bus, k)
  {
    ReachableInv(s);
    SentIsFinal(s, acts, t, k);
    UntouchedTaken(s, t, bus, k);
  }

  /**
   * The message of a sent row, for which there was a call, never reaches the bus
   * exactly if the bus refused it in every sweep that attempted it so far.
   */
  lemma SentMeansHandedOverIff(s: State, bus: nat -> Bus, k: Key)
    requires Reachable(s) && k in s.rows && s.rows[k].status.Sent?
    ensures k in s.stagedAt && exists i :: s.stagedAt[k] <= i < |s.log| && s.log[i].key == k
    ensures LostForGood(s, bus, k) <==> AlwaysRefused(s, bus, k)
  {
    SentWasCalled(s, k);
    if AlwaysRefused(s, bus, k) {
      forall acts, t | Run(s, acts, t)
        ensures k in t.stagedAt && !Taken(t, bus, k) { RefusedStaysRefused(s, acts, t, bus, k); }
    } else {
      assert Run(s, [], s);
    }
  }

  lemma UndisturbedDelivery(k: Key, e: Staged, outcome: Outcome) returns (acts: seq<Action>, s: State)
    requires outcome.Published?
    ensures Run(EMPTY, acts, s) && k in s.rows && k in s.stagedAt && s.rows[k].status.Sent? && |s.log| == 1
    ensures forall a :: a in acts && a.Attempt? ==> a.outcome == outcome
  {
    var v := [Verdict(outcome, 0)];
    var staged := StageNext(EMPTY, k, e, 0);
    LoneBatch(staged.rows, k);
    SweepIsARun(staged, [k], v);
    SweptAt(staged.rows, [k], v, 1);
    assert [k][0] == k;
    s := SweepState(staged, [k], v);
    assert Calls(staged.rows, [k], v, 0) == [];
    acts := [Stage(k, e, 0)] + SweepActions([k], v);
    RunCons(EMPTY, Stage(k, e, 0), staged, SweepActions([k], v), s);
  }

  /** And so it can happen: a bus that throws once loses the event. */
  lemma OneRefusalLosesTheEvent(k: Key, e: Staged, message: string) returns (acts: seq<Action>, s: State)
    ensures Run(EMPTY, acts, s) && Real(acts) && k in s.rows && k in s.stagedAt && s.rows[k].status.Sent?
    ensures |s.log| == 1 && LostForGood(s, (i: nat) => if i == 0 then Bus.Throws(message) else Answers(true), k)
  {
    acts, s := UndisturbedDelivery(k, e, PublishEvent(Bus.Throws(message)));
    var bus := (i: nat) => if i == 0 then Bus.Throws(message) else Answers(true);
    assert AlwaysRefused(s, bus, k);
    SentMeansHandedOverIff(s, bus, k);
  }
}
