/** Whose address has a provider vouched for, and what that means for merging accounts. */
module VouchedAddresses {
  import opened Common
  import opened Accounts
  import opened AccountRuns
  import AI = AccountInvariants
  import AT = AccountTheorems

  /**
   * This step signs an identity in to an account, by creating it or by merging,
   * on an address its provider vouched for.
   */
  ghost predicate Vouches(w: World, a: Action, id: Id, identity: Identity, email: string)
    requires Enabled(w, a)
  {
    && a.OAuth? && a.byLink.None? && Mergeable(a.oauth)
    && a.oauth.identity == identity && a.oauth.email == Some(email)
    && FindOrCreateOAuthUser(w.t, a.oauth, a.newId, a.at, a.byLink, a.byEmail).1.Ok?
    && FindOrCreateOAuthUser(w.t, a.oauth, a.newId, a.at, a.byLink, a.byEmail).1.value.id == id
  }

  /** Some step of the run did. */
  ghost predicate VouchedBy(w: World, acts: seq<Action>, id: Id, identity: Identity, email: string)
    decreases |acts|
  {
    && acts != [] && Enabled(w, acts[0])
    && (Vouches(w, acts[0], id, identity, email) || VouchedBy(Next(w, acts[0]), acts[1..], id, identity, email))
  }

  ghost predicate Vouched(w: World, acts: seq<Action>, id: Id) {
    exists identity, email :: VouchedBy(w, acts, id, identity, email)
  }

  // ---------------------------------------------------------------- a vouched address stays

  ghost predicate HoldsBoth(u: User, identity: Identity, email: string) {
    u.accountType.Registered? && u.email == Some(email) && Holds(u, identity)
  }

  lemma VouchesGives(w: World, a: Action, id: Id, identity: Identity, email: string)
    requires AI.Inv(w) && Enabled(w, a) && Vouches(w, a, id, identity, email)
    ensures id in NextTables(w, a).users && HoldsBoth(NextTables(w, a).users[id], identity, email)
  {
    var u' := NextTables(w, a).users[id];
    if a.byEmail.Some? {
      assert UserOk(w.t.users[id]);
      HoldsSnoc(w.t.users[id], Link(identity, Some(email), a.at), identity);
    } else {
      assert u'.links[0].identity == identity;
    }
  }

  /** No step takes an identity away from an account. */
  lemma StepKeepsIdentity(w: World, a: Action, id: Id, identity: Identity)
    requires Enabled(w, a) && w.t.users.Keys <= w.used
    requires id in w.t.users && id in NextTables(w, a).users && Holds(w.t.users[id], identity)
    ensures Holds(NextTables(w, a).users[id], identity)
  {
    var u, u' := w.t.users[id], NextTables(w, a).users[id];
    var i :| 0 <= i < |u.links| && u.links[i].identity == identity;
    assert |u.links| <= |u'.links| && u'.links[i] == u.links[i];
  }

  lemma StepKeepsBoth(w: World, a: Action, id: Id, identity: Identity, email: string)
    requires Enabled(w, a) && w.t.users.Keys <= w.used && id in w.t.users && HoldsBoth(w.t.users[id], identity, email)
    requires id in NextTables(w, a).users && Live(NextTables(w, a).users[id])
    ensures HoldsBoth(NextTables(w, a).users[id], identity, email)
  {
    StepRow(w, a, id);
    StepKeepsIdentity(w, a, id, identity);
  }

  lemma {:induction false} RunKeepsBoth(w: World, acts: seq<Action>, w': World, id: Id, identity: Identity,
      email: string)
    requires Reachable(w) && Run(w, acts, w') && id in w.t.users && HoldsBoth(w.t.users[id], identity, email)
    requires id in w'.t.users && Live(w'.t.users[id])
    ensures HoldsBoth(w'.t.users[id], identity, email)
    decreases |acts|
  {
    if acts != [] {
      var m := Next(w, acts[0]);
      AI.ReachableInv(w);
      ReachableByStep(w, acts[0]);
      if id !in m.t.users {
        AT.StaysGone(m, acts[1..], w', id);
      } else if !Live(m.t.users[id]) {
        AT.DeletionIsFinal(m, acts[1..], w', id);
      } else {
        StepKeepsBoth(w, acts[0], id, identity, email);
        RunKeepsBoth(m, acts[1..], w', id, identity, email);
      }
    }
  }

  /**
   * As long as it lives, an account that was vouched for holds exactly the address
   * vouched for, and the identity that did.
   */
  lemma {:induction false} VouchedIsHeld(w: World, acts: seq<Action>, w': World, id: Id, identity: Identity,
      email: string)
    requires Reachable(w) && Run(w, acts, w') && VouchedBy(w, acts, id, identity, email)
    requires id in w'.t.users && Live(w'.t.users[id])
    ensures HoldsBoth(w'.t.users[id], identity, email)
    decreases |acts|
  {
    var m := Next(w, acts[0]);
    AI.ReachableInv(w);
    ReachableByStep(w, acts[0]);
    if Vouches(w, acts[0], id, identity, email) {
      VouchesGives(w, acts[0], id, identity, email);
      RunKeepsBoth(m, acts[1..], w', id, identity, email);
    } else {
      VouchedIsHeld(m, acts[1..], w', id, identity, email);
    }
  }

  // ---------------------------------------------------------------- merging

  ghost predicate Merges(w: World, a: Action, id: Id) {
    Enabled(w, a) && a.OAuth? && a.byLink.None? && Mergeable(a.oauth) && a.byEmail == Some(id)
  }

  /** Another identity, linked to the same account, whose provider had vouched for the same address. */
  ghost predicate JoinsVouched(w0: World, acts: seq<Action>, w: World, a: Action, id: Id)
    requires a.OAuth? && id in w.t.users
  {
    exists other, email ::
      VouchedBy(w0, acts, id, other, email) && other != a.oauth.identity && a.oauth.email == Some(email)
          && Holds(w.t.users[id], other)
  }

  /**
   * A merge is always on an address the incoming provider vouches for; it joins
   * two identities both vouched for on that address exactly if the account's own
   * address had been vouched for before.
   */
  lemma MergeJoinsVouchedIff(w0: World, acts: seq<Action>, w: World, a: Action, id: Id)
    requires Init(w0) && Run(w0, acts, w) && Merges(w, a, id)
    ensures id in w.t.users && w.t.users[id].email == a.oauth.email
    ensures Vouches(w, a, id, a.oauth.identity, a.oauth.email.value)
    ensures JoinsVouched(w0, acts, w, a, id) <==> Vouched(w0, acts, id)
  {
    assert Run(w0, [], w0);
    if Vouched(w0, acts, id) {
      var other, email :| VouchedBy(w0, acts, id, other, email);
      VouchedIsHeld(w0, acts, w, id, other, email);
    }
  }

  lemma {:induction false} VouchedBySnoc(w: World, acts: seq<Action>, m: World, a: Action, id: Id,
      identity: Identity, email: string)
    requires Run(w, acts, m) && Enabled(m, a)
    ensures VouchedBy(w, acts + [a], id, identity, email)
            <==> VouchedBy(w, acts, id, identity, email) || Vouches(m, a, id, identity, email)
    decreases |acts|
  {
    if acts == [] {
      assert ([] + [a])[1..] == [];
    } else {
      assert (acts + [a])[1..] == acts[1..] + [a];
      VouchedBySnoc(Next(w, acts[0]), acts[1..], m, a, id, identity, email);
    }
  }

  /**
   * The other case arises: whoever signs up first with an address nobody vouched
   * for keeps the account when its address is vouched for by another identity.
   */
  lemma UnvouchedAddressMerges(w0: World, x: Identity, y: Identity, email: string, a: Id, b: Id)
    requires Init(w0) && email != "" && x != y && a != "" && b != "" && a !in w0.used && b !in w0.used && a != b
    ensures var first := OAuth(OAuthPayload(x, Some(email), false, None), a, 0, None, None);
            var second := OAuth(OAuthPayload(y, Some(email), true, None), b, 1, None, Some(a));
            && Enabled(w0, first)
            && Merges(Next(w0, first), second, a)
            && FindOrCreateOAuthUser(Next(w0, first).t, second.oauth, b, 1, None,
                Some(a)).1 == Ok(Session(a, Registered, 0))
            && !Vouched(w0, [first], a)
  {
    var first := OAuth(OAuthPayload(x, Some(email), false, None), a, 0, None, None);
    var m := Next(w0, first);
    assert m.t.users[a].links == [Link(x, Some(email), 0)];
    forall identity, e ensures !VouchedBy(w0, [first], a, identity, e) {
      assert [first][1..] == [];
      assert !VouchedBy(m, [], a, identity, e);
    }
  }
}
