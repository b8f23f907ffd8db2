/** Which services `enter` stops and which ones it and `exit` start again. */
module Services {
  type User = string

  /** A configured service: its name and whether it is a user service. */
  datatype Service = Service(name: string, isUser: bool)

  /** A stop or a restart of one unit, of the system or of one user. */
  datatype Target = Target(name: string, user: Owner)
  datatype Owner = System | Of(user: User)

  /** The state of the units that were recorded, by name: whether they were active. */
  type Statuses = map<string, bool>

  /** The statuses of the users that were logged in, in the order in which they were recorded. */
  type UserStatuses = seq<(User, Statuses)>

  predicate Active(s: Statuses, name: string) {
    name in s && s[name]
  }

  /** The units of interest among all units: those configured for the system, or for users. */
  function Collate(services: seq<Service>, ofUser: bool, units: Statuses): (r: Statuses) {
    map n | n in units && Service(n, ofUser) in services :: units[n]
  }

  /** Recorded as active is exactly what is configured, for the kind asked for, and active. */
  lemma CollateKeepsConfigured(services: seq<Service>, ofUser: bool, units: Statuses, name: string)
    ensures Active(Collate(services, ofUser, units), name) <==> Service(name, ofUser) in services && Active(units, name)
  {
  }

  // ---------------------------------------------------------------------------------------------
  // The loops over services and users
  // ---------------------------------------------------------------------------------------------

  /** The recorded users for whom the unit was active. */
  function UserTargets(name: string, users: UserStatuses): seq<Target>
    decreases |users|
  {
    if users == [] then []
    else
      var init := UserTargets(name, users[..|users| - 1]);
      var (user, statuses) := users[|users| - 1];
      if Active(statuses, name) then init + [Target(name, Of(user))] else init
  }

  function ServiceTargets(s: Service, sys: Statuses, users: UserStatuses): seq<Target> {
    if s.isUser then UserTargets(s.name, users)
    else if Active(sys, s.name) then [Target(s.name, System)]
    else []
  }

  /** Everything that one loop over `services` touches, in its order. */
  function Targets(services: seq<Service>, sys: Statuses, users: UserStatuses): seq<Target>
    decreases |services|
  {
    if services == [] then []
    else
      var n := |services| - 1;
      Targets(services[..n], sys, users) + ServiceTargets(services[n], sys, users)
  }

  function Reversed(services: seq<Service>): (r: seq<Service>)
    ensures |r| == |services|
    ensures forall i | 0 <= i < |r| :: r[i] == services[|services| - 1 - i]
  {
    seq(|services|, i requires 0 <= i < |services| => services[|services| - 1 - i])
  }

  /** Those of the recorded users that are still logged in. */
  function StillIn(users: UserStatuses, loggedIn: set<User>): UserStatuses
    decreases |users|
  {
    if users == [] then []
    else
      var init := StillIn(users[..|users| - 1], loggedIn);
      if users[|users| - 1].0 in loggedIn then init + [users[|users| - 1]] else init
  }

  // ---------------------------------------------------------------------------------------------
  // What is stopped is started again
  // ---------------------------------------------------------------------------------------------

  lemma TargetsSnoc(services: seq<Service>, s: Service, sys: Statuses, users: UserStatuses)
    ensures Targets(services + [s], sys, users) == Targets(services, sys, users) + ServiceTargets(s, sys, users)
  {
    assert (services + [s])[..|services|] == services;
  }

  lemma NoTargets(sys: Statuses, users: UserStatuses)
    ensures Targets([], sys, users) == []
  {
  }

  lemma {:induction false} TargetsAppend(a: seq<Service>, b: seq<Service>, sys: Statuses, users: UserStatuses)
    ensures Targets(a + b, sys, users) == Targets(a, sys, users) + Targets(b, sys, users)
    decreases |b|
  {
    hide ServiceTargets, Targets;
    if b == [] {
      assert a + b == a;
      NoTargets(sys, users);
    } else {
      var init, s := b[..|b| - 1], b[|b| - 1];
      assert b == init + [s] && a + b == (a + init) + [s];
      TargetsAppend(a, init, sys, users);
      TargetsSnoc(a + init, s, sys, users);
      TargetsSnoc(init, s, sys, users);
    }
  }

  /**
   `exit` walks the configured services backwards; it restarts exactly what `enter` stopped, each as
   often as it was stopped.
   */
  lemma {:induction false} RestartsWhatWasStopped(services: seq<Service>, sys: Statuses, users: UserStatuses)
    ensures multiset(Targets(Reversed(services), sys, users)) == multiset(Targets(services, sys, users))
    decreases |services|
  {
    if services == [] {
      assert Reversed(services) == [];
    } else {
      var n := |services| - 1;
      var last := [services[n]];
      assert Reversed(services) == last + Reversed(services[..n]);
      TargetsAppend(last, Reversed(services[..n]), sys, users);
      RestartsWhatWasStopped(services[..n], sys, users);
      assert last[..0] == [];
      assert Targets(last, sys, users) == ServiceTargets(services[n], sys, users);
    }
  }

  /** A unit is stopped exactly when it is configured and was recorded as active. */
  lemma {:induction false} StoppedExactly(services: seq<Service>, sys: Statuses, users: UserStatuses, t: Target)
    ensures t in Targets(services, sys, users) <==>
            (t.user == System && Service(t.name, false) in services && Active(sys, t.name)) ||
            (t.user.Of? && Service(t.name, true) in services &&
             exists u :: u in users && u.0 == t.user.user && Active(u.1, t.name))
    decreases |services|
  {
    if services != [] {
      var n := |services| - 1;
      StoppedExactly(services[..n], sys, users, t);
      assert services == services[..n] + [services[n]];
      UserTargetsExactly(services[n].name, users, t);
    }
  }

  lemma {:induction false} UserTargetsExactly(name: string, users: UserStatuses, t: Target)
    ensures t in UserTargets(name, users) <==>
            t.name == name && t.user.Of? && exists u :: u in users && u.0 == t.user.user && Active(u.1, name)
    decreases |users|
  {
    if users != [] {
      var n := |users| - 1;
      UserTargetsExactly(name, users[..n], t);
      assert users == users[..n] + [users[n]];
    }
  }

  lemma {:induction false} StillInFewer(name: string, users: UserStatuses, loggedIn: set<User>)
    ensures multiset(UserTargets(name, StillIn(users, loggedIn))) <= multiset(UserTargets(name, users))
    decreases |users|
  {
    if users != [] {
      var n := |users| - 1;
      StillInFewer(name, users[..n], loggedIn);
      var kept := StillIn(users[..n], loggedIn);
      if users[n].0 in loggedIn {
        assert (kept + [users[n]])[..|kept|] == kept;
      }
    }
  }

  /** Each record of a user who is logged in is kept, as often as it is there, and no other. */
  lemma {:induction false} StillInExactly(users: UserStatuses, loggedIn: set<User>, u: (User, Statuses))
    ensures multiset(StillIn(users, loggedIn))[u] == if u.0 in loggedIn then multiset(users)[u] else 0
    decreases |users|
  {
    if users != [] {
      var n := |users| - 1;
      StillInExactly(users[..n], loggedIn, u);
      assert users == users[..n] + [users[n]];
    }
  }

  /** A command for the system, or for a user who is logged in. */
  predicate Reached(t: Target, loggedIn: set<User>) {
    t.user == System || (t.user.Of? && t.user.user in loggedIn)
  }

  lemma {:induction false} StillInTargets(name: string, users: UserStatuses, loggedIn: set<User>, t: Target)
    ensures multiset(UserTargets(name, StillIn(users, loggedIn)))[t] ==
      if t.user.Of? && t.user.user in loggedIn then multiset(UserTargets(name, users))[t] else 0
    decreases |users|
  {
    if users != [] {
      var n := |users| - 1;
      StillInTargets(name, users[..n], loggedIn, t);
      UserTargetsExactly(name, users, t);
      var kept := StillIn(users[..n], loggedIn);
      if users[n].0 in loggedIn {
        assert (kept + [users[n]])[..|kept|] == kept;
      }
    }
  }

  /**
   Inside the zone `enter` restarts, of what stopping the restartable services took, everything of the
   system and of the users who are still logged in, as often, and nothing of the users who are not.
   */
  lemma {:induction false} ZoneRestartsExactly(
      restartable: seq<Service>, sys: Statuses, users: UserStatuses, loggedIn: set<User>, t: Target)
    ensures multiset(Targets(restartable, sys, StillIn(users, loggedIn)))[t] ==
      if Reached(t, loggedIn) then multiset(Targets(restartable, sys, users))[t] else 0
    decreases |restartable|
  {
    if restartable != [] {
      var n := |restartable| - 1;
      ZoneRestartsExactly(restartable[..n], sys, users, loggedIn, t);
      StillInTargets(restartable[n].name, users, loggedIn, t);
      UserTargetsExactly(restartable[n].name, users, t);
    }
  }

  /** Which units those are: restartable, recorded as active, and of a user who is still there. */
  lemma ZoneRestarts(
      restartable: seq<Service>, sys: Statuses, users: UserStatuses, loggedIn: set<User>, t: Target)
    ensures t in Targets(restartable, sys, StillIn(users, loggedIn)) <==>
            (t.user == System && Service(t.name, false) in restartable && Active(sys, t.name)) ||
            (t.user.Of? && t.user.user in loggedIn && Service(t.name, true) in restartable &&
             exists u :: u in users && u.0 == t.user.user && Active(u.1, t.name))
  {
    hide Targets, StillIn, Active;
    var some, all := Targets(restartable, sys, StillIn(users, loggedIn)), Targets(restartable, sys, users);
    ZoneRestartsExactly(restartable, sys, users, loggedIn, t);
    StoppedExactly(restartable, sys, users, t);
    assert t in some <==> multiset(some)[t] > 0;
    assert t in all <==> multiset(all)[t] > 0;
  }

  /** Already inside the zone, `enter` restarts nothing that it did not stop. */
  lemma {:induction false} ZoneRestartsOnlyStopped(
      excluded: seq<Service>, restartable: seq<Service>, sys: Statuses, users: UserStatuses, loggedIn: set<User>)
    ensures multiset(Targets(restartable, sys, StillIn(users, loggedIn)))
         <= multiset(Targets(excluded + restartable, sys, users))
    decreases |restartable|
  {
    TargetsAppend(excluded, restartable, sys, users);
    if restartable != [] {
      var n := |restartable| - 1;
      TargetsAppend(excluded, restartable[..n], sys, users);
      ZoneRestartsOnlyStopped([], restartable[..n], sys, users, loggedIn);
      assert [] + restartable[..n] == restartable[..n];
      StillInFewer(restartable[n].name, users, loggedIn);
    }
  }
}
