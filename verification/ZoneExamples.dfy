/** Small systems on which `enter` and `exit` succeed, and on which they fail. */
module ZoneExamples {
  import opened Core
  import opened MountTable
  import opened MountPaths
  import opened MountLists
  import opened ZoneProtocol
  import opened ZoneTheorems
  import opened ZoneBuild

  const ROOT_FS: Fs := Fs("/dev/sda2", "ext4")
  const RUN_FS: Fs := Fs("tmpfs", "tmpfs")
  const DISK_FS: Fs := Fs("/dev/sdb1", "ext4")
  const ZONE_FS: Fs := Fs("/dev/zram0", "ext4")

  const RUN_LOC: Loc := [Mnt, Dir("run"), Mnt]
  const DISK_LOC: Loc := [Mnt, Dir("mnt"), Mnt]

  /** The root, `/run`, and perhaps a second disk at `/mnt`. */
  function Example(disk: bool): (t: RawTable) {
    if disk then map[ROOT := ROOT_FS, RUN_LOC := RUN_FS, DISK_LOC := DISK_FS]
    else map[ROOT := ROOT_FS, RUN_LOC := RUN_FS]
  }

  const OPTIONS: Loc -> string := k => "rw"
  const LISTING: seq<Entry> := [Entry("none", ["run"], "tmpfs", "rw")]
  const ORDER: seq<Name> := ["run"]

  lemma ExampleIs(disk: bool)
    ensures forall k :: k in Example(disk) <==> k == ROOT || k == RUN_LOC || (disk && k == DISK_LOC)
    ensures Example(disk)[ROOT] == ROOT_FS && Example(disk)[RUN_LOC] == RUN_FS
    ensures disk ==> Example(disk)[DISK_LOC] == DISK_FS
    ensures RUN_LOC[..1] == ROOT && RUN_LOC[..3] == RUN_LOC && DISK_LOC[..1] == ROOT && DISK_LOC[..3] == DISK_LOC
    ensures RUN_LOC != ROOT && DISK_LOC != ROOT && RUN_LOC != DISK_LOC
  {
    assert "run"[0] != "mnt"[0];
    assert RUN_LOC[1] != DISK_LOC[1];
    assert |RUN_LOC| == 3 && |DISK_LOC| == 3 && |ROOT| == 1;
  }

  lemma ExampleIsValid(disk: bool)
    ensures Valid(Example(disk))
  {
    ExampleIs(disk);
    hide Example;
    hide Grounded;
    var t := Example(disk);
    assert |ROOT + [Mnt]| == 2;
    ExampleGround(disk, ROOT);
    ExampleGround(disk, RUN_LOC);
    ExampleGround(disk, DISK_LOC);
    assert forall l | l in t :: MountLoc(l) && Grounded(t, l);
  }

  lemma ExampleGround(disk: bool, l: Loc)
    requires l == ROOT || l == RUN_LOC || l == DISK_LOC
    ensures l in Example(disk) ==> Grounded(Example(disk), l)
  {
    ExampleIs(disk);
    hide Example;
    assert forall n | 0 <= n < |l| && l[n] == Mnt :: n == 0 || n == 2;
    assert ROOT[..1] == ROOT;
  }

  lemma Places(disk: bool, i: Name)
    ensures ROOT + [Mnt] !in Example(disk) && RUN_LOC + [Mnt] !in Example(disk) && DISK_LOC + [Mnt] !in Example(disk)
    ensures [Mnt, Dir(i)] + [Mnt] in Example(disk) <==> i == "run" || (disk && i == "mnt")
    ensures [Mnt, Dir("run")] + [Mnt] == RUN_LOC && [Mnt, Dir("mnt")] + [Mnt] == DISK_LOC
  {
    ExampleIs(disk);
    hide Example;
    assert |ROOT + [Mnt]| == 2 && |RUN_LOC + [Mnt]| == 4 && |DISK_LOC + [Mnt]| == 4;
    var l := [Mnt, Dir(i)] + [Mnt];
    assert l[1] == Dir(i) && RUN_LOC[1] == Dir("run") && DISK_LOC[1] == Dir("mnt") && |ROOT| == 1;
    if i == "run" {
      assert l == RUN_LOC;
    }
    if i == "mnt" {
      assert l == DISK_LOC;
    }
  }

  /** A name at the root leads to what is mounted there, or to the directory. */
  lemma ExampleLookup(disk: bool, i: Name)
    ensures Lookup(Example(disk), [i]) ==
      if i == "run" then RUN_LOC else if disk && i == "mnt" then DISK_LOC else [Mnt, Dir(i)]
  {
    ExampleIs(disk);
    Places(disk, i);
    var t, d := Example(disk), [Mnt, Dir(i)];
    hide Example, RUN_LOC, DISK_LOC;
    var r := if i == "run" then RUN_LOC else if disk && i == "mnt" then DISK_LOC else d;
    TopIs(t, [], ROOT);
    assert [] + [Mnt] == ROOT && ROOT + [Dir(i)] == d;
    assert r == d || r == d + [Mnt];
    assert r[..|r|] == r && (|r| == 3 ==> r[2] == Mnt);
    TopIs(t, d, r);
    ResolveName(t, [], i);
  }

  lemma ExampleIsFresh(disk: bool)
    ensures Fresh(Example(disk)) && PlainTable(Example(disk))
  {
    ExampleIs(disk);
    ExampleLookup(disk, "run");
    var t := Example(disk);
    hide Example, Lookup;
    forall k | k in t
      ensures !(RUN_LOC + [Dir("PivotZone")] <= k)
      ensures forall n | n in Names(k) :: PlainName(n)
    {
      assert |k| <= 3;
      ExampleNames();
    }
  }

  lemma ExampleNames()
    ensures Names(ROOT) == [] && Names(RUN_LOC) == ["run"] && Names(DISK_LOC) == ["mnt"]
    ensures PlainName("run") && PlainName("mnt")
  {
    assert Names([]) == [];
    assert RUN_LOC[..2] == [Mnt, Dir("run")] && RUN_LOC[..2][..1] == [Mnt] && [Mnt][..0] == [];
    assert DISK_LOC[..2] == [Mnt, Dir("mnt")] && DISK_LOC[..2][..1] == [Mnt];
    assert Names([Mnt]) == [];
    assert Names([Mnt, Dir("run")]) == ["run"];
    assert Names([Mnt, Dir("mnt")]) == ["mnt"];
  }

  lemma ExamplePfs(disk: bool)
    ensures RealPfs(Example(disk)) == {"run"} == set i | i in ORDER
  {
    var t := Example(disk);
    forall i
      ensures i in RealPfs(t) <==> i == "run"
    {
      ExampleIs(disk);
      ExampleLookup(disk, i);
      assert |[Mnt, Dir(i)]| == 2 && |ROOT| == 1 && |RUN_LOC| == 3 && |DISK_LOC| == 3;
      MntIsNoPfs();
    }
  }

  /** Without the disk every mount is below a mounted `_PFS`; with it one is not. */
  lemma ExampleCovered(disk: bool)
    ensures RealCovered(Example(disk)) <==> !disk
  {
    ExampleIs(disk);
    ExamplePfs(disk);
    ExampleLookup(disk, "run");
    DiskIsNotInRun();
    var t := Example(disk);
    hide Example, Lookup, RealPfs, RUN_LOC, DISK_LOC, ROOT;
    if disk {
      forall i | i in RealPfs(t)
        ensures !(Lookup(t, [i]) <= DISK_LOC)
      {
        assert i == "run";
      }
      assert DISK_LOC in t && DISK_LOC != ROOT;
    } else {
      assert "run" in RealPfs(t) && Lookup(t, ["run"]) <= RUN_LOC;
    }
  }

  lemma DiskIsNotInRun()
    ensures !(RUN_LOC <= DISK_LOC)
  {
    assert RUN_LOC[1] == Dir("run") && DISK_LOC[1] == Dir("mnt") && "run"[0] != "mnt"[0];
  }

  lemma WantedNames()
    ensures Wanted(["run"]) && !Wanted([]) && !Wanted(["mnt"])
  {
    MntIsNoPfs();
    RunIsPfs();
    hide PFS;
    assert |["run", "user"]| == 2 && |RUN_DIR| == 2 && |["run"]| == 1;
    assert ["run"][0] == "run" && ["mnt"][0] == "mnt";
    assert !(["run", "user"] < ["run"]) && !(RUN_DIR < ["run"]);
  }

  lemma MntIsNoPfs()
    ensures "mnt" !in PFS
  {
    assert "mnt"[0] == 'm' && "dev"[0] == 'd' && "proc"[0] == 'p' && "sys"[0] == 's'
      && "run"[0] == 'r' && "tmp"[0] == 't';
  }

  /** `/proc/mounts` has one wanted line. */
  lemma ExampleListing(disk: bool)
    ensures PfsMounts(Example(disk), OPTIONS, LISTING)
  {
    ExampleIs(disk);
    ExampleNames();
    WantedNames();
    var t, line := Example(disk), Entry("none", ["run"], "tmpfs", "rw");
    hide Example, Wanted, RUN_LOC, DISK_LOC, ROOT;
    assert Line(t, OPTIONS, RUN_LOC) == line;
    forall e: Entry
      ensures multiset(LISTING)[e] == if Wanted(e.path) then |MountsOf(t, OPTIONS, e)| else 0
    {
      if e == line {
        assert MountsOf(t, OPTIONS, e) == {RUN_LOC};
      } else if Wanted(e.path) {
        assert MountsOf(t, OPTIONS, e) == {};
      }
    }
  }

  // ---------------------------------------------------------------------------------------------
  // The systems with a zone
  // ---------------------------------------------------------------------------------------------

  function Start(disk: bool): Table {
    ExampleIsValid(disk);
    Example(disk)
  }

  function WithZone(disk: bool): System {
    System(Build(Start(disk), ZONE_FS, LISTING), None, false)
  }

  lemma ZoneIsBuilt(disk: bool)
    ensures PfsMounts(Attach(Start(disk), ZONEROOT, ZONE_FS), OPTIONS, LISTING)
    ensures Built(WithZone(disk)) && Grown(Start(disk), WithZone(disk).table)
    ensures WithZone(disk).table[Lookup(WithZone(disk).table, ZONEROOT)] == ZONE_FS
    ensures WithZone(disk).table[ROOT] == ROOT_FS && RealPfs(WithZone(disk).table) == RealPfs(Start(disk))
  {
    ExampleIs(disk);
    ExampleListing(disk);
    ExampleIsFresh(disk);
    hide Example, Build, PfsMounts, PlainTable, Fresh, Built, Grown, Attach, Lookup, ZONEROOT, RealPfs;
    ZoneItselfUnwanted(Start(disk), ZONE_FS, OPTIONS, LISTING);
    BuildIsBuilt(Start(disk), ZONE_FS, OPTIONS, LISTING);
    SamePfs(Start(disk), WithZone(disk).table);
  }

  lemma DiskIsUncovered()
    ensures !Covered(WithZone(true).table)
  {
    ZoneIsBuilt(true);
    ExampleIs(true);
    ExamplePfs(true);
    var b: Table := WithZone(true).table;
    hide Example, Build, Built, Lookup, ZONEROOT, RealPfs, WithZone;
    BuiltNesting(b);
    assert DISK_LOC in b && DISK_LOC[1] == Dir("mnt") && "mnt"[0] != "run"[0];
    assert forall l: Loc :: ROOT + [Dir("run")] <= l ==> l[1] == Dir("run");
    assert !(Lookup(b, ["run"]) <= DISK_LOC) && !(Lookup(b, ZONEROOT) <= DISK_LOC);
  }

  /** With a disk at `/mnt`, `enter` does everything but its last `umount`. */
  lemma EnterFailsWithADisk()
    ensures EnterMounts(WithZone(true)).Raised? && EnterMounts(WithZone(true)).error == Busy
  {
    hide EnterMounts, WithZone, Covered, Built, Lookup;
    ZoneIsBuilt(true);
    DiskIsUncovered();
    EnterSucceedsExactly(WithZone(true));
  }

  /** Without one, the zone can be entered and left, and destroyed again. */
  lemma SmallSystemLives()
    ensures EnterMounts(WithZone(false)).Done?
    ensures Exit(EnterMounts(WithZone(false)).s, "/dev/zram0", ROOT_FS, ORDER, true) == Done(WithZone(false))
    ensures Destroy(WithZone(false).table, LISTING) == Ok(Start(false))
  {
    hide EnterMounts, Exit, Destroy, Build, Lookup, Example, Fresh, PlainTable, RealCovered, PfsMounts, RealPfs, Unbind,
      ZONEROOT, Attach;
    ZoneIsBuilt(false);
    ExampleIs(false);
    ExampleIsFresh(false);
    ExampleCovered(false);
    ExamplePfs(false);
    ExampleListing(false);
    WholeLife(Start(false), ZONE_FS, OPTIONS, LISTING, LISTING, ORDER);
    OneListing();
    DestroyUndoesBuild(Start(false), ZONE_FS, LISTING);
  }

  lemma OneListing()
    ensures Sorted(LISTING) && forall e | e in LISTING :: PlainPath(e.path)
  {
  }

  /** Without services to stop, `exit` raises on the same system and leaves it so that `enter` refuses. */
  lemma ExitFailsOnTheSmallSystem()
    ensures var s := WithZone(false);
      var r := Exit(EnterMounts(s).s, "/dev/zram0", ROOT_FS, ORDER, false);
      EnterMounts(s).Done? && r.Raised? && r.error == AttributeMissing && r.s != s
      && EnterMounts(r.s) == Raised(r.s, AlreadyEntered)
  {
    hide EnterMounts, Exit, WithZone, Built, Covered, Lookup, RealPfs, Example, RealCovered, Grown, ZONEROOT;
    ZoneIsBuilt(false);
    ExampleIsFresh(false);
    ExampleCovered(false);
    ExamplePfs(false);
    FreshHasRun(Start(false));
    BuildIsCovered(Start(false), WithZone(false).table);
    EnterSucceedsExactly(WithZone(false));
    ExitWithoutStatuses(WithZone(false), "/dev/zram0", ORDER);
  }

  // ---------------------------------------------------------------------------------------------
  // The directories by their names
  // ---------------------------------------------------------------------------------------------

  /** The directories that `enter` takes out of the old root. */
  predicate Named(i: Name) {
    i == "dev" || i == "proc" || i == "sys" || i == "run" || i == "tmp"
  }

  const ZONE: Path := ["run", "PivotZone", "zoneroot"]
  const HOLDER: Path := ["run", "PivotZone", "pfsholder"]

  lemma SamePaths()
    ensures ZONE == ZONEROOT && HOLDER == PFSHOLDER
  {
  }

  lemma NamedIsPfs(i: Name)
    ensures i in PFS <==> Named(i)
  {
  }

  /** Which mounts are listed for the zone. */
  lemma WantedByName(p: Path)
    ensures Wanted(p) <==>
      p != [] && Named(p[0]) && !(["run", "user"] < p) && !(["run", "PivotZone"] < p)
  {
    hide Named, PFS;
    if p != [] {
      NamedIsPfs(p[0]);
    }
  }

  /** On a built zone `enter` succeeds exactly when every real mount is below one of these directories. */
  lemma EnterSucceedsByName(s: System)
    requires Built(s)
    ensures EnterMounts(s).Done? <==>
      forall k | k in s.table ::
        || k == ROOT || Lookup(s.table, ZONE) <= k
        || exists i :: Named(i) && IsMount(s.table, [i]) && Lookup(s.table, [i]) <= k
  {
    hide EnterMounts, Built, PFS, Lookup, ZONEROOT, Named, ZONE;
    SamePaths();
    forall i
      ensures i in PFS <==> Named(i)
    {
      NamedIsPfs(i);
    }
    EnterSucceedsExactly(s);
  }

  /** And then whatever was mounted at one of them is found under that name in the holder directory. */
  lemma SlotByName(s: System, i: Name)
    requires Built(s) && EnterMounts(s).Done? && Named(i) && IsMount(s.table, [i])
    ensures var t' := EnterMounts(s).s.table;
      IsMount(t', HOLDER + [i]) && t'[Lookup(t', HOLDER + [i])] == s.table[Lookup(s.table, [i])]
  {
    hide EnterMounts, Built, PFS, Lookup, PFSHOLDER, Covered, Named, HOLDER;
    SamePaths();
    NamedIsPfs(i);
    EnterSucceedsExactly(s);
    EnteredSlot(s, i);
  }

  /** A system with nothing mounted but its root and some of these directories. */
  predicate OnlyNamed(t: RawTable) {
    forall k: Loc | k in t :: k == ROOT || (|k| == 3 && k[0] == k[2] == Mnt && k[1].Dir? && Named(k[1].name))
  }

  lemma OnlyNamedIsCovered(t: RawTable)
    requires Valid(t) && OnlyNamed(t)
    ensures RealCovered(t)
    ensures forall i :: ROOT + [Dir(i), Mnt] in t ==> IsMount(t, [i]) && t[Lookup(t, [i])] == t[ROOT + [Dir(i), Mnt]]
  {
    hide Named, PFS, Lookup;
    forall i | ROOT + [Dir(i), Mnt] in t
      ensures Lookup(t, [i]) == ROOT + [Dir(i), Mnt]
    {
      NamedLookup(t, i);
    }
    forall k: Loc | k in t && k != ROOT
      ensures exists i :: i in RealPfs(t) && Lookup(t, [i]) <= k
    {
      var i := k[1].name;
      assert k == ROOT + [Dir(i), Mnt];
      NamedIsPfs(i);
      assert i in RealPfs(t);
    }
  }

  lemma NamedLookup(t: RawTable, i: Name)
    requires Valid(t) && OnlyNamed(t) && ROOT + [Dir(i), Mnt] in t
    ensures Lookup(t, [i]) == ROOT + [Dir(i), Mnt]
  {
    hide Named;
    var d := ROOT + [Dir(i)];
    var r := d + [Mnt];
    assert r == ROOT + [Dir(i), Mnt] && |r + [Mnt]| == 4 && |ROOT| == 1;
    assert [] + [Mnt] == ROOT && ROOT[..1] == ROOT && r[..|r|] == r;
    TopIs(t, [], ROOT);
    TopIs(t, d, r);
    ResolveName(t, [], i);
  }

  /**
   On such a system with a mounted `/run`, the zone is built and entered, and every directory that was
   mounted is found under its name in the holder directory.
   */
  lemma PlainSystemEnters(t: Table, zoneFs: Fs, options: Loc -> string, es: seq<Entry>, i: Name)
    requires Fresh(t) && PlainTable(t) && OnlyNamed(t)
    requires PfsMounts(Attach(t, ZONEROOT, zoneFs), options, es)
    ensures forall e | e in es :: e.path != []
    ensures var r := EnterMounts(System(Build(t, zoneFs, es), None, false));
      var p := HOLDER + [i];
      && r.Done?
      && (ROOT + [Dir(i), Mnt] in t ==>
          IsMount(r.s.table, p) && r.s.table[Lookup(r.s.table, p)] == t[ROOT + [Dir(i), Mnt]])
  {
    hide Named, PFS, Lookup, EnterMounts, Build, Built, Covered, RealCovered, PfsMounts, PlainTable, Fresh, Attach,
         ZONEROOT, HOLDER, Grown;
    OnlyNamedIsCovered(t);
    BuildIsBuilt(t, zoneFs, options, es);
    var b: Table := Build(t, zoneFs, es);
    var s := System(b, None, false);
    FreshHasRun(t);
    BuildIsCovered(t, b);
    EnterSucceedsExactly(s);
    if ROOT + [Dir(i), Mnt] in t {
      NameStays(t, b, i);
      GrownKeeps(t, b, ROOT + [Dir(i), Mnt]);
      NamedLookup(t, i);
      OnlyNamedName(t, i);
      SlotByName(s, i);
    }
  }

  lemma GrownKeeps(t: RawTable, b: RawTable, k: Loc)
    requires Grown(t, b) && k in t
    ensures k in b && b[k] == t[k]
  {
  }

  lemma OnlyNamedName(t: RawTable, i: Name)
    requires OnlyNamed(t) && ROOT + [Dir(i), Mnt] in t
    ensures Named(i)
  {
    var k := ROOT + [Dir(i), Mnt];
    assert |k| == 3 && k[1] == Dir(i) && |ROOT| == 1;
  }
}
