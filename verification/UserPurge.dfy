/** The purge task: hard-deletes the accounts whose grace window has passed. */
module UserPurge {
  import opened Accounts
  import AR = AccountRuns

  /** Which of the two deletes of an account throws, if any. */
  datatype Fault = NoFault | DevicesFail | UserFails

  /** The accounts removed when a run with these victims has treated all but `rest`. */
  ghost predicate Removed(victims: set<Id>, rest: set<Id>, fault: Id -> Fault, id: Id) {
    id in victims && id !in rest && fault(id).NoFault?
  }

  ghost predicate Stripped(victims: set<Id>, rest: set<Id>, fault: Id -> Fault, id: Id) {
    id in victims && id !in rest && !fault(id).DevicesFail?
  }

  ghost function KeptUsers(users: Users, victims: set<Id>, rest: set<Id>, fault: Id -> Fault): Users {
    map id | id in users && !Removed(victims, rest, fault, id) :: users[id]
  }

  ghost function KeptDevices(devices: map<Fingerprint, Device>, victims: set<Id>, rest: set<Id>,
      fault: Id -> Fault): map<Fingerprint, Device> {
    map fp | fp in devices && !Stripped(victims, rest, fault, devices[fp].userId) :: devices[fp]
  }

  lemma KeptUsersStep(users: Users, victims: set<Id>, rest: set<Id>, fault: Id -> Fault, v: Id)
    requires v in rest && rest <= victims
    ensures KeptUsers(users, victims, rest - {v}, fault)
            == if fault(v).NoFault? then KeptUsers(users, victims, rest, fault) - {v}
                else KeptUsers(users, victims, rest, fault)
  {
  }

  lemma KeptDevicesStep(devices: map<Fingerprint, Device>, victims: set<Id>, rest: set<Id>, fault: Id -> Fault, v: Id)
    requires v in rest && rest <= victims
    ensures var kept := KeptDevices(devices, victims, rest, fault);
            KeptDevices(devices, victims, rest - {v}, fault)
            == if fault(v).DevicesFail? then kept else map fp | fp in kept && kept[fp].userId != v :: kept[fp]
  {
  }

  class Task {
    var users: Users
    var devices: map<Fingerprint, Device>

    ghost predicate Valid()
      reads this
    {
      DevicesOwned(Tables(users, devices))
    }

    constructor (t: Tables)
      requires DevicesOwned(t)
      ensures Valid() && users == t.users && devices == t.devices
    {
      users, devices := t.users, t.devices;
    }

    /** Children first, then the user. */
    method PurgeUser(id: Id, fault: Fault) returns (ok: bool)
      requires Valid()
      modifies this
      ensures Valid() && (ok <==> fault.NoFault?)
      ensures devices == if fault.DevicesFail? then old(devices)
              else Accounts.WipeDevices(Tables(old(users), old(devices)), id).devices
      ensures users == if fault.NoFault? then old(users) - {id} else old(users)
    {
      if fault.DevicesFail? { return false; }
      devices := map fp | fp in devices && devices[fp].userId != id :: devices[fp];
      if fault.UserFails? { return false; }
      users := users - {id};
      return true;
    }

    /**
     * One run at `now`. Exactly the accounts deleted more than 30 days before are
     * treated; one that fails does not stop the others and is not counted; at
     * every point every device belongs to an existing account.
     */
    method Run(now: nat, fault: Id -> Fault) returns (purged: nat, ghost victims: set<Id>)
      requires Valid()
      modifies this
      ensures Valid()
      ensures victims == AR.Expired(old(users), now).Keys
      ensures users == KeptUsers(old(users), victims, {}, fault)
      ensures devices == KeptDevices(old(devices), victims, {}, fault)
      ensures purged == |set id | id in victims && fault(id).NoFault?|
    {
      var found := AR.Expired(users, now).Keys;
      victims := found;
      purged := 0;
      ghost var done: set<Id> := {};
      var rest := found;
      while rest != {}
        invariant Valid() && rest <= victims
        invariant users == KeptUsers(old(users), victims, rest, fault)
        invariant devices == KeptDevices(old(devices), victims, rest, fault)
        invariant done == (set id | id in victims && id !in rest && fault(id).NoFault?) && purged == |done|
        decreases rest
      {
        var victim :| victim in rest;
        KeptUsersStep(old(users), victims, rest, fault, victim);
        KeptDevicesStep(old(devices), victims, rest, fault, victim);
        var ok := PurgeUser(victim, fault(victim));
        if ok {
          purged := purged + 1;
          done := done + {victim};
        }
        rest := rest - {victim};
      }
      assert done == set id | id in victims && fault(id).NoFault?;
    }
  }

  /**
   * What one run leaves, account by account: it is gone exactly if it had expired
   * and neither delete failed, and its devices are gone exactly if it had expired
   * and theirs did not.
   */
  lemma PurgeLeaves(users: Users, devices: map<Fingerprint, Device>, now: nat, fault: Id -> Fault,
                    id: Id, fp: Fingerprint)
    ensures var victims := AR.Expired(users, now).Keys;
            && (id in KeptUsers(users, victims, {}, fault) <==> id in users && !(id in victims && fault(id) == NoFault))
            && (fp in KeptDevices(devices, victims, {}, fault)
                <==> fp in devices && !(devices[fp].userId in victims && fault(devices[fp].userId) != DevicesFail))
    ensures id in KeptUsers(users, AR.Expired(users, now).Keys, {}, fault) ==>
              KeptUsers(users, AR.Expired(users, now).Keys, {}, fault)[id] == users[id]
    ensures fp in KeptDevices(devices, AR.Expired(users, now).Keys, {}, fault) ==>
              KeptDevices(devices, AR.Expired(users, now).Keys, {}, fault)[fp] == devices[fp]
  {
  }

  /** A purge after a purge: it finds exactly what has expired by then, less what the first run removed. */
  lemma RerunRetriesFailures(users: Users, users': Users, now: nat, later: nat, fault: Id -> Fault, id: Id)
    requires now <= later && users' == KeptUsers(users, AR.Expired(users, now).Keys, {}, fault)
    ensures id in AR.Expired(users', later)
            <==> id in AR.Expired(users, later) && !(id in AR.Expired(users, now) && fault(id).NoFault?)
    ensures id in AR.Expired(users, now) ==> id in AR.Expired(users, later)
    ensures id in AR.Expired(users', later) ==> users'[id] == users[id]
  {
  }
}
