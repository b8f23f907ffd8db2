/** The object whose methods build, enter, leave and destroy a zone. */
module ZoneCoordinator {
  import opened Core
  import opened MountTable
  import opened MountLists
  import opened ZoneProtocol
  import opened ZoneTheorems
  import opened ZoneBuild
  import Services

  /** What the service manager answers: the system's units, and those of every logged-in user. */
  datatype Units = Units(system: Services.Statuses, users: Services.UserStatuses)

  function CollateUsers(services: seq<Services.Service>, users: Services.UserStatuses): (r: Services.UserStatuses) {
    seq(|users|, i requires 0 <= i < |users| => (users[i].0, Services.Collate(services, true, users[i].1)))
  }

  lemma CollateUsersExactly(services: seq<Services.Service>, users: Services.UserStatuses, t: Services.Target)
    ensures t.user.Of? ==>
      ((exists u :: u in CollateUsers(services, users) && u.0 == t.user.user && Services.Active(u.1, t.name)) <==>
       Services.Service(t.name, true) in services
       && exists u :: u in users && u.0 == t.user.user && Services.Active(u.1, t.name))
  {
    hide Services.Active, Services.Collate;
    if t.user.Of? {
      var r := CollateUsers(services, users);
      forall i | 0 <= i < |users|
        ensures r[i].0 == users[i].0
        ensures Services.Active(r[i].1, t.name) <==>
          Services.Service(t.name, true) in services && Services.Active(users[i].1, t.name)
      {
        Services.CollateKeepsConfigured(services, true, users[i].1, t.name);
      }
      if u :| u in users && u.0 == t.user.user && Services.Active(u.1, t.name) {
        var i :| 0 <= i < |users| && users[i] == u;
        assert r[i] in r;
      }
      if u :| u in r && u.0 == t.user.user && Services.Active(u.1, t.name) {
        var i :| 0 <= i < |r| && r[i] == u;
        assert users[i] in users;
      }
    }
  }

  /** The unit is known and active, for the system or for a user. */
  predicate Runs(units: Units, t: Services.Target) {
    match t.user
    case System => Services.Active(units.system, t.name)
    case Of(user) => exists u :: u in units.users && u.0 == user && Services.Active(u.1, t.name)
  }

  /** What is stopped for these services, by the units: the configured ones of its kind that run. */
  lemma StopsWhatRuns(services: seq<Services.Service>, units: Units, t: Services.Target)
    ensures var sys, users := Services.Collate(services, false, units.system), CollateUsers(services, units.users);
      t in Services.Targets(services, sys, users) <==>
      Services.Service(t.name, t.user.Of?) in services && Runs(units, t)
  {
    hide Services.Active, Services.Collate, Services.Targets, CollateUsers;
    Services.StoppedExactly(services, Services.Collate(services, false, units.system),
                            CollateUsers(services, units.users), t);
    Services.CollateKeepsConfigured(services, false, units.system, t.name);
    CollateUsersExactly(services, units.users, t);
  }

  /** What is restarted inside the zone: the restartable ones of the system and of who is still logged in. */
  lemma RestartsWhatRan(excluded: seq<Services.Service>, restartable: seq<Services.Service>, units: Units,
                        later: set<Services.User>, t: Services.Target)
    ensures var all := excluded + restartable;
      var sys, users := Services.Collate(all, false, units.system), CollateUsers(all, units.users);
      t in Services.Targets(restartable, sys, Services.StillIn(users, later)) <==>
      Services.Service(t.name, t.user.Of?) in restartable && Services.Reached(t, later) && Runs(units, t)
  {
    hide Services.Active, Services.Collate, Services.Targets, Services.StillIn, CollateUsers;
    var all := excluded + restartable;
    var sys, users := Services.Collate(all, false, units.system), CollateUsers(all, units.users);
    Services.ZoneRestarts(restartable, sys, users, later, t);
    Services.CollateKeepsConfigured(all, false, units.system, t.name);
    CollateUsersExactly(all, units.users, t);
  }

  /** How a method ends: with the system it leaves and the exception it raises, if any. */
  function Outcome(s: System, error: Option<Error>): Run {
    match error
    case None => Done(s)
    case Some(e) => Raised(s, e)
  }

  lemma TableRoot(t: Table)
    ensures ROOT in t
  {
  }

  /** The stop or restart commands of one loop over `services`, in the order in which they are issued. */
  method Commands(services: seq<Services.Service>, sys: Services.Statuses, users: Services.UserStatuses)
    returns (targets: seq<Services.Target>)
    ensures targets == Services.Targets(services, sys, users)
  {
    targets := [];
    var i := 0;
    while i < |services|
      invariant 0 <= i <= |services|
      invariant targets == Services.Targets(services[..i], sys, users)
    {
      assert services[..i + 1][..i] == services[..i];
      var s := services[i];
      if s.isUser {
        ghost var before := targets;
        var u := 0;
        while u < |users|
          invariant 0 <= u <= |users|
          invariant targets == before + Services.UserTargets(s.name, users[..u])
        {
          assert users[..u + 1][..u] == users[..u];
          var (user, statuses) := users[u];
          if s.name in statuses && statuses[s.name] {
            targets := targets + [Services.Target(s.name, Services.Of(user))];
          }
          u := u + 1;
        }
        assert users[..u] == users;
      } else if s.name in sys && sys[s.name] {
        targets := targets + [Services.Target(s.name, Services.System)];
      }
      i := i + 1;
    }
    assert services[..i] == services;
  }

  class Coordinator {
    var system: System                                   // the mounts and directories of the machine
    var device: string                                   // the zone's block device
    var rootFs: Fs                                       // the contents of _ROOTDEV
    const excluded: seq<Services.Service>
    const restartable: seq<Services.Service>
    var systemStatuses: Option<Services.Statuses>        // set by enter only
    var userStatuses: Services.UserStatuses
    var stopped: seq<Services.Target>                    // the stop commands issued so far
    var restarted: seq<Services.Target>                  // the restart commands issued so far

    constructor (system: System, excluded: seq<Services.Service>, restartable: seq<Services.Service>)
      ensures this.system == system && this.excluded == excluded && this.restartable == restartable
      ensures systemStatuses == None && stopped == [] && restarted == []
    {
      this.system, this.excluded, this.restartable := system, excluded, restartable;
      device, rootFs := "", Fs("", "");
      systemStatuses, userStatuses, stopped, restarted := None, [], [], [];
    }

    function Configured(): seq<Services.Service> {
      excluded + restartable
    }

    // -------------------------------------------------------------------------------------------
    // build and destroy
    // -------------------------------------------------------------------------------------------

    /** `es` is what `__get_pfs_mounts` returns. */
    method Build(zoneFs: Fs, es: seq<Entry>)
      requires forall e | e in es :: e.path != []
      modifies this`system, this`device, this`rootFs
      ensures system == old(system).(table := ZoneBuild.Build(old(system.table), zoneFs, es))
      ensures device == zoneFs.device && rootFs == system.table[ROOT]
    {
      device := zoneFs.device;
      system := system.(table := Attach(system.table, ZONEROOT, zoneFs));
      ghost var zone := system.table;
      var i := 0;
      while i < |es|
        invariant 0 <= i <= |es|
        invariant device == zoneFs.device
        invariant system == old(system).(table := MountAll(zone, ZONEROOT, es[..i]))
      {
        assert es[..i + 1][..i] == es[..i];
        if es[i].kind != "autofs" {
          system := system.(table := Attach(system.table, ZONEROOT + es[i].path, Fs(es[i].device, es[i].kind)));
        }
        i := i + 1;
      }
      assert es[..i] == es;
      rootFs := system.table[ROOT];
      RootKept(system.table, ZONEROOT + BACKINGROOT, rootFs);
      system := system.(table := Attach(system.table, ZONEROOT + BACKINGROOT, rootFs));
    }

    method Destroy(es: seq<Entry>) returns (error: Option<Error>)
      modifies this`system
      ensures system == old(system).(table := DestroyLeaves(old(system.table), es))
      ensures error == match ZoneBuild.Destroy(old(system.table), es) case Ok(_) => None case Err(e) => Some(e)
      ensures error == None ==> Ok(system.table) == ZoneBuild.Destroy(old(system.table), es)
    {
      var was := system;
      if IsMount(system.table, ZONEROOT + BACKINGROOT) {
        var r := Unmount(system.table, ZONEROOT + BACKINGROOT);
        if r.Err? {
          return Some(r.error);
        }
        system := system.(table := r.value);
      }
      ghost var start := system.table;
      var i := |es|;
      assert es[..i] == es;
      while i > 0
        invariant 0 <= i <= |es|
        invariant system == was.(table := system.table)
        invariant UnmountAll(start, ZONEROOT, es) == UnmountAll(system.table, ZONEROOT, es[..i])
        invariant UnmountAllLeaves(start, ZONEROOT, es) == UnmountAllLeaves(system.table, ZONEROOT, es[..i])
      {
        i := i - 1;
        assert es[..i + 1][..i] == es[..i];
        if IsMount(system.table, ZONEROOT + es[i].path) {
          var r := Unmount(system.table, ZONEROOT + es[i].path);
          if r.Err? {
            return Some(r.error);
          }
          system := system.(table := r.value);
        }
      }
      if IsMount(system.table, ZONEROOT) {
        var r := Unmount(system.table, ZONEROOT);
        if r.Err? {
          return Some(r.error);
        }
        system := system.(table := r.value);
      }
      error := None;
    }

    // -------------------------------------------------------------------------------------------
    // enter
    // -------------------------------------------------------------------------------------------

    method StopServices(units: Units)
      modifies this`systemStatuses, this`userStatuses, this`stopped
      ensures systemStatuses == Some(Services.Collate(Configured(), false, units.system))
      ensures userStatuses == CollateUsers(Configured(), units.users)
      ensures stopped == old(stopped) + Services.Targets(Configured(), systemStatuses.value, userStatuses)
    {
      var services := Configured();
      systemStatuses := Some(Services.Collate(services, false, units.system));
      userStatuses := CollateUsers(services, units.users);
      var targets := Commands(services, systemStatuses.value, userStatuses);
      stopped := stopped + targets;
    }

    method RestartServices(services: seq<Services.Service>, users: Services.UserStatuses)
      requires systemStatuses.Some?
      modifies this`restarted
      ensures restarted == old(restarted) + Services.Targets(services, systemStatuses.value, users)
    {
      var targets := Commands(services, systemStatuses.value, users);
      restarted := restarted + targets;
    }

    /** `umount`, checked. */
    method Umount(p: Path) returns (error: Option<Error>)
      modifies this`system
      ensures Outcome(system, error) == FromResult(old(system), Unmount(old(system.table), p))
    {
      error := Adopt(Unmount(system.table, p));
    }

    /** `mount --move`, checked. */
    method MoveMount(from: Path, to: Path) returns (error: Option<Error>)
      requires to != []
      modifies this`system
      ensures Outcome(system, error) == MoveStep(old(system), from, to)
    {
      error := Adopt(Move(system.table, from, to));
    }

    /** `pivot_root`, checked. */
    method Pivot(newRoot: Path, putOld: Path) returns (error: Option<Error>)
      modifies this`system
      ensures Outcome(system, error) == FromResult(old(system), PivotRoot(old(system.table), newRoot, putOld))
    {
      error := Adopt(PivotRoot(system.table, newRoot, putOld));
    }

    method Adopt(r: Result<Table>) returns (error: Option<Error>)
      modifies this`system
      ensures Outcome(system, error) == FromResult(old(system), r)
    {
      if r.Err? {
        return Some(r.error);
      }
      system := system.(table := r.value);
      error := None;
    }

    method StashMounts() returns (error: Option<Error>)
      modifies this`system
      ensures Outcome(system, error) == StashAll(old(system))
    {
      var n := 0;
      while n < |PFS|
        invariant 0 <= n <= |PFS|
        invariant StashFrom(old(system), PFS) == StashFrom(system, PFS[n..])
      {
        var i := PFS[n];
        assert PFS[n..][0] == i && PFS[n..][1..] == PFS[n + 1..];
        if IsMount(system.table, BACKINGROOT + [i]) {
          if system.holder.None? {
            return Some(DirectoryMissing);
          }
          if i in system.holder.value {
            return Some(DirectoryExists);
          }
          system := system.(holder := Some(system.holder.value + {i}));
          if i !in SHARED_PFS {
            var e := MoveMount(BACKINGROOT + [i], PFSHOLDER + [i]);
            if e.Some? {
              return e;
            }
          }
        }
        n := n + 1;
      }
      error := None;
    }

    method DropBind() returns (error: Option<Error>)
      modifies this`system
      ensures Outcome(system, error) == DropBacking(old(system))
    {
      if IsMount(system.table, BACKINGROOT) {
        error := Umount(BACKINGROOT);
      } else if IsMount(system.table, ZONEROOT + BACKINGROOT) {
        error := Umount(ZONEROOT + BACKINGROOT);
      } else {
        error := None;
      }
    }

    /** The swap of `/run`, with the restart of services while the real one is in place. */
    method SwapRuns(later: set<Services.User>) returns (error: Option<Error>)
      requires restartable != [] ==> systemStatuses.Some?
      modifies this`system, this`restarted
      ensures Outcome(system, error) == SwapRun(old(system))
      ensures error == None && restartable == [] ==> restarted == old(restarted)
      ensures error == None && restartable != [] ==>
                restarted == old(restarted)
                  + Services.Targets(restartable, systemStatuses.value, Services.StillIn(userStatuses, later))
    {
      hide Move, Lookup, Valid, Services.Targets, ZRUNHOLDER;
      if system.swapDir {
        return Some(DirectoryExists);
      }
      system := system.(swapDir := true);
      var unchecked := MoveMount(["run"], [ZRUNHOLDER]);
      assert Outcome(system, None) == ParkZoneRun(old(system));
      error := MoveMount(ViaSwap(BACKINGROOT) + ["run"], ["run"]);
      if error.Some? {
        return;
      }
      if restartable != [] {
        RestartServices(restartable, Services.StillIn(userStatuses, later));
      }
      error := MoveMount(["run"], ViaSwap(PFSHOLDER) + ["run"]);
      if error.Some? {
        return;
      }
      error := MoveMount([ZRUNHOLDER], ["run"]);
      if error.Some? {
        return;
      }
      if IsMount(system.table, [ZRUNHOLDER]) {
        return Some(Busy);
      }
      system := system.(swapDir := false);
    }

    /** `units` is what the service manager knows at first, `later` who is logged in after the pivot. */
    method Enter(units: Units, later: set<Services.User>) returns (error: Option<Error>)
      modifies this
      ensures Outcome(system, error) == EnterMounts(old(system))
      ensures device == old(device) && rootFs == old(rootFs)
      ensures old(system.holder).Some? || Configured() == [] ==>
                systemStatuses == old(systemStatuses) && userStatuses == old(userStatuses) && stopped == old(stopped)
      ensures old(system.holder).None? && Configured() != [] ==>
                && systemStatuses == Some(Services.Collate(Configured(), false, units.system))
                && userStatuses == CollateUsers(Configured(), units.users)
                && stopped == old(stopped) + Services.Targets(Configured(), systemStatuses.value, userStatuses)
      ensures error == None && restartable == [] ==> restarted == old(restarted)
      ensures error == None && restartable != [] ==>
                systemStatuses.Some? &&
                restarted == old(restarted)
                  + Services.Targets(restartable, systemStatuses.value, Services.StillIn(userStatuses, later))
    {
      hide DropBacking, PivotRoot, Unmount, Lookup, Valid, StashAll, SwapRun, Services.Targets, Services.Collate,
           CollateUsers;
      if system.holder.Some? {
        return Some(AlreadyEntered);
      }
      system := system.(holder := Some({}));
      if excluded != [] || restartable != [] {
        StopServices(units);
      }
      error := DropBind();
      if error.Some? {
        return;
      }
      error := Pivot(ZONEROOT, ZONEROOT + BACKINGROOT);
      if error.Some? {
        return;
      }
      error := StashMounts();
      if error.Some? {
        return;
      }
      error := SwapRuns(later);
      if error.Some? {
        return;
      }
      error := Umount(BACKINGROOT);
    }

    // -------------------------------------------------------------------------------------------
    // exit
    // -------------------------------------------------------------------------------------------

    /** `order` is the order in which the holder directory is listed. */
    method Exit(order: seq<Name>) returns (error: Option<Error>)
      modifies this`system, this`restarted
      ensures Outcome(system, error)
           == ZoneProtocol.Exit(old(system), device, rootFs, order, systemStatuses.Some?)
      ensures error == None ==> systemStatuses.Some?
      ensures Configured() == [] ==> restarted == old(restarted)
      ensures error == None && Configured() != [] ==>
                restarted == old(restarted)
                  + Services.Targets(Services.Reversed(Configured()), systemStatuses.value, userStatuses)
    {
      hide Unmount, Move, PivotRoot, Lookup, Valid, Attach, Services.Targets, Services.Reversed;
      RootKept(system.table, BACKINGROOT, rootFs);
      if system.table[ROOT].device != device {
        return Some(NotInZone);
      }
      system := system.(table := Attach(system.table, BACKINGROOT, rootFs));
      ghost var mounted := system;
      var n := 0;
      while n < |order|
        invariant 0 <= n <= |order|
        invariant restarted == old(restarted)
        invariant UnstashFrom(mounted, order) == UnstashFrom(system, order[n..])
      {
        var i := order[n];
        assert order[n..][0] == i && order[n..][1..] == order[n + 1..];
        error := MoveMount(PFSHOLDER + [i], BACKINGROOT + [i]);
        if error.Some? {
          return;
        }
        if system.holder.None? || i !in system.holder.value {
          return Some(DirectoryMissing);
        }
        system := system.(holder := Some(system.holder.value - {i}));
        n := n + 1;
      }
      error := Pivot(BACKINGROOT, BACKINGROOT + ZONEROOT);
      if error.Some? {
        return;
      }
      if systemStatuses.None? {
        return Some(AttributeMissing);
      }
      if excluded != [] || restartable != [] {
        RestartServices(Services.Reversed(Configured()), userStatuses);
      }
      TableRoot(system.table);
      system := system.(table := Attach(system.table, ZONEROOT + BACKINGROOT, system.table[ROOT]));
      if system.holder != Some({}) {
        return Some(Busy);
      }
      system := system.(holder := None);
      error := None;
    }

    /**
     A visit to a built zone.  With a service configured, or with statuses recorded by an earlier visit,
     `enter` followed by `exit` leaves the machine as it was and `exit` restarts what `enter` stopped.
     Otherwise `exit` raises, after its mounts but before its bind: the bind in the zone and the empty
     holder directory are then what is left of the visit.
     */
    method Visit(units: Units, later: set<Services.User>, order: seq<Name>)
      returns (ghost inZone: seq<Services.Target>, error: Option<Error>)
      requires Built(system) && Covered(system.table)
      requires system.table[Lookup(system.table, ZONEROOT)].device == device && rootFs == system.table[ROOT]
      requires NoRepeats(order) && (set i | i in order) == RealPfs(system.table)
      modifies this
      ensures error == if Configured() != [] || old(systemStatuses).Some? then None else Some(AttributeMissing)
      ensures if error == None then system == old(system) else LeftInside(old(system), system)
      ensures |inZone| <= |restarted| && restarted[..|inZone|] == inZone && |stopped| >= |old(stopped)|
      ensures multiset(restarted[|inZone|..]) == multiset(stopped[|old(stopped)|..])
      ensures Configured() == [] ==> stopped == old(stopped) && restarted == old(restarted)
    {
      hide Built, Covered, Lookup, Valid, EnterMounts, ZoneProtocol.Exit, NoRepeats, RealPfs, Services.Targets,
        Services.Collate, CollateUsers, Services.Reversed, LeftInside;
      ghost var was, before := system, stopped;
      BuiltIsIdle(was);
      if Configured() != [] || systemStatuses.Some? {
        ExitUndoesEnter(was, device, order);
      } else {
        ExitWithoutStatuses(was, device, order);
      }
      error := Enter(units, later);
      inZone := restarted;
      error := Exit(order);
      if Configured() == [] {
        assert restarted == inZone && restarted[|inZone|..] == [] && stopped[|before|..] == [];
      } else {
        Services.RestartsWhatWasStopped(Configured(), systemStatuses.value, userStatuses);
        var again := Services.Targets(Services.Reversed(Configured()), systemStatuses.value, userStatuses);
        assert restarted == inZone + again && restarted[|inZone|..] == again;
        var gone := Services.Targets(Configured(), systemStatuses.value, userStatuses);
        assert stopped == before + gone && stopped[|before|..] == gone;
      }
    }
  }

  lemma BuiltIsIdle(s: System)
    requires Built(s)
    ensures s.holder.None? && !s.swapDir && ROOT in s.table
  {
  }

  lemma RootKept(t: Table, p: Path, fs: Fs)
    requires p != []
    ensures ROOT in t && Attach(t, p, fs)[ROOT] == t[ROOT]
  {
    LookupShape(t, p);
  }
}
