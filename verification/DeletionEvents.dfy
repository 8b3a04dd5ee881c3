/** A deletion and the event that announces it: they go together, and what becomes of the event. */
module DeletionEvents {
  import opened Common
  import opened Accounts
  import opened AccountRuns
  import opened AccountInvariants
  import Outbox
  import OutboxDrain

  /** Exactly the deleted accounts have an outbox row, and it carries their id. */
  lemma DeleteAndEventAgree(w: World, id: Id)
    requires Reachable(w)
    ensures id in w.t.users ==> (!Live(w.t.users[id]) <==> DeletedKey(id) in w.ob.rows)
    ensures DeletedKey(id) in w.ob.rows ==> w.ob.rows[DeletedKey(id)].payload == map["userId" := id]
    ensures forall other :: DeletedKey(other) == DeletedKey(id) ==> other == id
  {
    ReachableInv(w);
    forall other | DeletedKey(other) == DeletedKey(id) ensures other == id { DeletedKeyInjective(other, id); }
    if DeletedKey(id) in w.ob.rows { assert IsDeletedEvent(w.ob.rows[DeletedKey(id)], id); }
  }

  /** Deleting an account stages its event, new and due at once, in the same step. */
  lemma DeletionStages(w: World, id: Id, at: nat)
    requires Reachable(w) && id in w.t.users && Live(w.t.users[id])
    ensures Enabled(w, Delete(id, at))
    ensures Next(w, Delete(id, at)).ob.rows
            == w.ob.rows["user.deleted:" + id :=
                 Outbox.Row("user", "user.deleted", map["userId" := id], Outbox.Pending, 0, at, None, None)]
  {
    ReachableInv(w);
    assert FindById(w.t, id).Ok?;
    DeletionStagesOnce(w, id);
  }

  // ---------------------------------------------------------------- towards the publisher

  predicate NoStaging(acts: seq<Outbox.Action>) {
    forall i :: 0 <= i < |acts| ==> !acts[i].Stage?
  }

  /** From any state the dispatcher can come to rest: by finishing its sweep, or at worst by crashing. */
  lemma DispatcherSettles(s: Outbox.State) returns (acts: seq<Outbox.Action>, t: Outbox.State)
    ensures Outbox.Run(s, acts, t) && NoStaging(acts) && t.phase.Idle? && t.rows == s.rows
  {
    if s.phase.Idle? {
      acts, t := [], s;
    } else {
      t := Outbox.Next(s, Outbox.Abort);
      assert Outbox.Run(t, [], t);
      Outbox.RunCons(s, Outbox.Abort, t, [], t);
      acts := [Outbox.Abort] + [];
    }
  }

  lemma DispatchStep(s: Outbox.State, a: Outbox.Action, k: Outbox.Key)
    requires Outbox.Inv(s) && Outbox.Enabled(s, a) && !a.Stage? && k in s.rows
    ensures var t := Outbox.Next(s, a);
            Outbox.Inv(t) && k in t.rows
                && (t.rows[k].pattern, t.rows[k].payload) == (s.rows[k].pattern, s.rows[k].payload)
  {
    Outbox.StepKeepsInv(s, a);
    Outbox.DispatchKeepsMessages(s, a);
  }

  /** However the dispatcher works on, it keeps every message. */
  lemma {:induction false} DispatchRun(s: Outbox.State, acts: seq<Outbox.Action>, t: Outbox.State, k: Outbox.Key)
    requires Outbox.Inv(s) && Outbox.Run(s, acts, t) && NoStaging(acts) && k in s.rows
    ensures Outbox.Inv(t) && k in t.rows
    ensures (t.rows[k].pattern, t.rows[k].payload) == (s.rows[k].pattern, s.rows[k].payload)
    decreases |acts|
  {
    if acts != [] {
      DispatchStep(s, acts[0], k);
      DispatchRun(Outbox.Next(s, acts[0]), acts[1..], t, k);
    }
  }

  /** A quiet sweep leaves a failed row alone. */
  lemma QuietSweepSkipsFailed(s: Outbox.State, t: Outbox.State, k: Outbox.Key)
    requires OutboxDrain.QuietSweep(s, t) && k in s.rows && s.rows[k].status.Failed?
    ensures k in t.rows && t.rows[k] == s.rows[k]
  {
    var batch: seq<Outbox.Key>, vs: seq<OutboxDrain.Verdict> :|
      OutboxDrain.SweepInput(s.rows, batch, vs) && t == OutboxDrain.SweepState(s, batch, vs);
    assert batch[..|batch|] == batch;
    OutboxDrain.SweptOther(s.rows, batch, vs, |batch|, k);
  }

  lemma {:induction false} QuietSweepsSkipFailed(ss: seq<Outbox.State>, i: nat, k: Outbox.Key)
    requires OutboxDrain.QuietSweeps(ss) && i < |ss| && k in ss[0].rows && ss[0].rows[k].status.Failed?
    ensures k in ss[i].rows && ss[i].rows[k] == ss[0].rows[k]
  {
    if i > 0 {
      QuietSweepsSkipFailed(ss, i - 1, k);
      assert OutboxDrain.QuietAt(ss, i - 1);
      QuietSweepSkipsFailed(ss[i - 1], ss[i], k);
    }
  }

  /** Some publisher call carried `user.deleted` with this id. */
  ghost predicate Announced(log: seq<Outbox.Publication>, id: Id) {
    exists i ::
      && 0 <= i < |log| && log[i].outcome.Published?
      && log[i].pattern == "user.deleted" && log[i].payload == map["userId" := id]
  }

  lemma EventOfDeletion(w: World, id: Id)
    requires Reachable(w) && id in w.t.users && !Live(w.t.users[id])
    ensures Outbox.Inv(w.ob) && DeletedKey(id) in w.ob.rows
    ensures w.ob.rows[DeletedKey(id)].pattern == "user.deleted"
            && w.ob.rows[DeletedKey(id)].payload == map["userId" := id]
  {
    ReachableInv(w);
    assert IsDeletedEvent(w.ob.rows[DeletedKey(id)], id);
  }

  lemma QuietSweepsAnnounce(ss: seq<Outbox.State>, n: nat, id: Id)
    requires OutboxDrain.QuietSweeps(ss) && Outbox.Inv(ss[0]) && DeletedKey(id) in ss[0].rows
    requires n == |OutboxDrain.PendingKeys(ss[0].rows)| && |ss| > 2 * n / 5 + 10
    requires var row := ss[0].rows[DeletedKey(id)];
             !row.status.Failed? && row.pattern == "user.deleted" && row.payload == map["userId" := id]
    ensures var k, t := DeletedKey(id), ss[2 * n / 5 + 10];
            k in t.rows && t.rows[k].status.Sent? && Announced(t.log, id)
  {
    var k, t := DeletedKey(id), ss[2 * n / 5 + 10];
    OutboxDrain.QuietDrainDelivers(ss, n, k);
    var i :| t.stagedAt[k] <= i < |t.log|
             && t.log[i] == Outbox.Publication(k, ss[0].rows[k].pattern, ss[0].rows[k].payload, Outbox.Published);
  }

  lemma QuietSweepsDecide(ss: seq<Outbox.State>, n: nat, id: Id)
    requires OutboxDrain.QuietSweeps(ss) && Outbox.Inv(ss[0]) && DeletedKey(id) in ss[0].rows
    requires n == |OutboxDrain.PendingKeys(ss[0].rows)| && |ss| > 2 * n / 5 + 10
    requires ss[0].rows[DeletedKey(id)].pattern == "user.deleted"
             && ss[0].rows[DeletedKey(id)].payload == map["userId" := id]
    ensures var k, t := DeletedKey(id), ss[2 * n / 5 + 10];
            && k in t.rows
            && (t.rows[k].status.Sent? <==> !ss[0].rows[k].status.Failed?)
            && (t.rows[k].status.Sent? ==> Announced(t.log, id))
  {
    if ss[0].rows[DeletedKey(id)].status.Failed? {
      QuietSweepsSkipFailed(ss, 2 * n / 5 + 10, DeletedKey(id));
    } else {
      QuietSweepsAnnounce(ss, n, id);
    }
  }

  /**
   * Take any reachable state, also one in the middle of a sweep, and let the
   * dispatcher come to rest in any way. If the publisher does not throw from
   * then on, the event of a deletion is sent within the drain bound, and was
   * announced, exactly if it had not been given up.
   */
  lemma DeletionIsAnnounced(w: World, id: Id, acts: seq<Outbox.Action>, ss: seq<Outbox.State>, n: nat)
    requires Reachable(w) && id in w.t.users && !Live(w.t.users[id])
    requires OutboxDrain.QuietSweeps(ss) && Outbox.Run(w.ob, acts, ss[0]) && NoStaging(acts)
    requires n == |OutboxDrain.PendingKeys(ss[0].rows)| && |ss| > 2 * n / 5 + 10
    ensures var k, t := DeletedKey(id), ss[2 * n / 5 + 10];
            && k in ss[0].rows && k in t.rows
            && (t.rows[k].status.Sent? <==> !ss[0].rows[k].status.Failed?)
            && (t.rows[k].status.Sent? ==> Announced(t.log, id))
  {
    EventOfDeletion(w, id);
    DispatchRun(w.ob, acts, ss[0], DeletedKey(id));
    QuietSweepsDecide(ss, n, id);
  }

  // ---------------------------------------------------------------- an event that was given up

  /** An account whose event exists cannot be deleted again. */
  lemma DeletionStagesOnce(w: World, id: Id)
    requires EventsInv(w) && FindById(w.t, id).Ok?
    ensures DeletedKey(id) !in w.ob.rows
  {
  }

  lemma DeleteLeavesGivenUp(w: World, a: Action, k: Outbox.Key)
    requires EventsInv(w) && k in w.ob.rows && w.ob.rows[k].status.Failed? && a.Delete? && Enabled(w, a)
    ensures Outbox.Untouched(w.ob, NextOutbox(w, a), k)
  {
    StandsUntouched(w.ob, k);
    if FindById(w.t, a.id).Ok? {
      DeletionStagesOnce(w, a.id);
      Outbox.SettledIsNotLoaded(w.ob, k);
      Outbox.StepLeavesSettled(w.ob, Outbox.Stage(DeletedKey(a.id), DeletedEvent(a.id), a.at), k);
    }
  }

  lemma DispatchLeavesSettled(s: Outbox.State, step: Outbox.Action, k: Outbox.Key)
    requires Outbox.Inv(s) && Outbox.Enabled(s, step) && !step.Stage? && k in s.rows && !s.rows[k].status.Pending?
    ensures Outbox.Untouched(s, Outbox.Next(s, step), k)
  {
    Outbox.SettledIsNotLoaded(s, k);
    Outbox.StepLeavesSettled(s, step, k);
  }

  lemma OutboxStands(w: World, a: Action)
    requires Enabled(w, a) && !a.Dispatch? && !a.Delete?
    ensures NextOutbox(w, a) == w.ob
  {
  }

  lemma StandsUntouched(s: Outbox.State, k: Outbox.Key)
    requires Outbox.Inv(s) && k in s.rows
    ensures Outbox.Untouched(s, s, k)
  {
    assert Outbox.KeyOk(s, k);
  }

  lemma StepLeavesGivenUp(w: World, a: Action, k: Outbox.Key)
    requires EventsInv(w) && Enabled(w, a) && k in w.ob.rows && w.ob.rows[k].status.Failed?
    ensures Outbox.Untouched(w.ob, NextOutbox(w, a), k)
  {
    if a.Dispatch? {
      DispatchLeavesSettled(w.ob, a.step, k);
    } else if a.Delete? {
      DeleteLeavesGivenUp(w, a, k);
    } else {
      OutboxStands(w, a);
      StandsUntouched(w.ob, k);
    }
  }

  /**
   * Nothing brings such an event back: over any run of service, dispatcher and
   * purge, its row stays failed and no publisher call is made for it, because a
   * second deletion of the account is refused before it stages anything.
   */
  lemma {:induction false} GivenUpStaysGivenUp(w: World, acts: seq<Action>, w': World, id: Id)
    requires Reachable(w) && Run(w, acts, w')
    requires DeletedKey(id) in w.ob.rows && w.ob.rows[DeletedKey(id)].status.Failed?
    ensures Outbox.Untouched(w.ob, w'.ob, DeletedKey(id))
    decreases |acts|
  {
    ReachableInv(w);
    if acts == [] {
      Outbox.SettledIsNotLoaded(w.ob, DeletedKey(id));
    } else {
      var m := Next(w, acts[0]);
      StepLeavesGivenUp(w, acts[0], DeletedKey(id));
      ReachableByStep(w, acts[0]);
      GivenUpStaysGivenUp(m, acts[1..], w', id);
      Outbox.UntouchedTrans(w.ob, m.ob, w'.ob, DeletedKey(id));
    }
  }
}
