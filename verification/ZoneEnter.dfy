/** What `enter` and `exit` do to a built zone. */
module ZoneEnter {
  import opened MountTable
  import opened MountPaths
  import opened ZoneLayout
  import opened ZoneProtocol
  import opened ZonePaths
  import opened ZoneSwap
  import opened ZoneRunSwap

  // ---------------------------------------------------------------------------------------------
  // The single moves, between layouts
  // ---------------------------------------------------------------------------------------------

  lemma StashMove(t: Table, f: Frame, names: set<Name>, i: Name)
    requires Routed(f) && i in f.src && i !in names && t == Layout(f, names)
    ensures Move(t, BACKINGROOT + [i], PFSHOLDER + [i]) == Ok(Layout(f, names + {i}))
  {
    hide Layout, Relocate, Frame.Good, Valid, Grounded, Vacant, PFS, BACKINGROOT, PFSHOLDER, ZONEROOT, RUN_DIR;
    Shape(f);
    BackingNameLookup(f, names, i);
    HolderLookup(f, names, i);
    StashGivesLayout(f, names, i);
    assert f.Hold() + [Dir(i)] + [Mnt] == f.Slot(i);
    SlotApart(f, i, f.src[i]);
    PrefixLeft(f.Hold() + [Dir(i)], [Mnt], f.Slot(i));
  }

  lemma UnstashMove(t: Table, f: Frame, names: set<Name>, i: Name)
    requires Routed(f) && i in f.src && i !in names && t == Layout(f, names + {i})
    ensures Move(t, PFSHOLDER + [i], BACKINGROOT + [i]) == Ok(Layout(f, names))
  {
    hide Layout, Relocate, Frame.Good, Valid, Grounded, Vacant, PFS, BACKINGROOT, PFSHOLDER, ZONEROOT, RUN_DIR;
    Shape(f);
    BackingGoneLookup(f, names, i);
    HolderLookup(f, names + {i}, i);
    UnstashGivesLayout(f, names, i);
    SlotSpot(f, names + {i}, i);
    SlotApart(f, i, f.src[i]);
    var b := Lookup(t, BACKINGROOT + [i]);
    PrefixLeft(b, [Mnt], f.Put() + f.src[i]);
  }

  // ---------------------------------------------------------------------------------------------
  // The swap of /run, between layouts
  // ---------------------------------------------------------------------------------------------

  lemma ParkIsVacant(f: Frame, names: set<Name>)
    requires Routed(f)
    ensures Vacant(Layout(f, names), ROOT + [Dir(ZRUNHOLDER)])
  {
    hide Layout, Frame.Good, Valid, Grounded, PFS, BACKINGROOT, PFSHOLDER, ZONEROOT;
    Shape(f);
    RunDirs(f, names);
    ResolveExtends(f.u, f.zone, ["run"]);
    var sw := ROOT + [Dir(ZRUNHOLDER)];
    forall q | q in Layout(f, names)
      ensures !(sw <= q)
    {
      var k := LayoutFrom(f, names, q);
      ParkAvoided(f, names, k);
    }
  }

  lemma RunFirst(f: Frame)
    requires Routed(f)
    ensures f.Put()[..2] == ROOT + [Dir("run")] && f.Hold()[..2] == ROOT + [Dir("run")]
    ensures ROOT + [Dir("run")] <= ROOT + ZoneRun(f)[|f.zone|..]
    ensures |f.Put()| > 2 && |f.Hold()| == |f.Put()|
  {
    hide Layout, Frame.Good, Valid, Grounded, Vacant, PFS, BACKINGROOT, PFSHOLDER, ZONEROOT, ZRUNHOLDER;
    Shape(f);
    RunDirs(f, {});
    ResolveName(f.u, f.zone, "run");
    ResolveExtends(f.u, f.zone, ["run"]);
    ZoneTop(f);
    var zr, rd := ZoneRun(f), ZoneRunDir(f);
    assert zr[..|f.zone| + 1] == f.zone + [Dir("run")];
    assert rd[..|f.zone| + 1] == f.zone + [Dir("run")] by {
      PrefixLeft(zr, [Dir("PivotZone")], rd);
      PrefixOfPrefix(f.zone + [Dir("run")], zr, |f.zone| + 1, |zr|);
    }
    assert zr[|f.zone|] == Dir("run") && rd[|f.zone|] == Dir("run");
  }

  lemma ZoneTop(f: Frame)
    requires Routed(f)
    ensures Top(f.u, f.zone) == f.zone
  {
  }

  lemma ParkIsNotRun()
    ensures Dir(ZRUNHOLDER) != Dir("run")
  {
    assert |ZRUNHOLDER| > 3;
  }

  lemma ParkAvoided(f: Frame, names: set<Name>, k: Loc)
    requires Routed(f) && k in f.u
    ensures !(ROOT + [Dir(ZRUNHOLDER)] <= f.Place(names, k))
  {
    hide Layout, Frame.Good, Valid, Grounded, PFS, BACKINGROOT, PFSHOLDER, ZONEROOT, ZRUNHOLDER;
    Shape(f);
    var q, sw := f.Place(names, k), ROOT + [Dir(ZRUNHOLDER)];
    if f.zone <= k {
      var a := f.zone + [Dir(ZRUNHOLDER)];
      assert a[|f.zone|..] == [Dir(ZRUNHOLDER)];
      PrefixUnshift(f.zone, a, k);
    } else {
      RunFirst(f);
      ParkIsNotRun();
      PlacedUnderRun(f, names, k);
      SameFirstName(sw, q);
    }
  }

  lemma PlacedUnderRun(f: Frame, names: set<Name>, k: Loc)
    requires Routed(f) && k in f.u && !(f.zone <= k)
    requires f.Put()[..2] == ROOT + [Dir("run")] && f.Hold()[..2] == ROOT + [Dir("run")]
    ensures |f.Place(names, k)| > 1 && f.Place(names, k)[1] == Dir("run")
  {
    hide Layout, Frame.Good, Valid, Grounded, Vacant, PFS, BACKINGROOT, PFSHOLDER, ZONEROOT, ZRUNHOLDER;
    assert f.Put()[1] == f.Put()[..2][1] && f.Hold()[1] == f.Hold()[..2][1];
    assert (ROOT + [Dir("run")])[1] == Dir("run");
  }

  lemma ZoneRunAbove(f: Frame)
    requires Routed(f)
    ensures ROOT + ZoneRun(f)[|f.zone|..] <= f.Put() && ROOT + ZoneRun(f)[|f.zone|..] <= f.Hold()
  {
    hide Layout, Frame.Good, Valid, Grounded, Vacant, PFS, BACKINGROOT, PFSHOLDER, ZONEROOT, ZRUNHOLDER;
    Shape(f);
    RunDirs(f, {});
    var z, r := ROOT + ZoneRun(f)[|f.zone|..], ROOT + ZoneRunDir(f)[|f.zone|..];
    PrefixLeft(ZoneRun(f), [Dir("PivotZone")], ZoneRunDir(f));
    PrefixTail(f.zone, ZoneRun(f));
    PrefixTail(f.zone, ZoneRunDir(f));
    PrefixCancel(f.zone, ZoneRun(f)[|f.zone|..], ZoneRunDir(f)[|f.zone|..]);
    PrefixCancel(ROOT, ZoneRun(f)[|f.zone|..], ZoneRunDir(f)[|f.zone|..]);
    PrefixTail(z, r);
  }

  lemma ZoneRunStack(t: Table, f: Frame, names: set<Name>)
    requires Routed(f) && t == Layout(f, names)
    ensures var z := ROOT + ZoneRun(f)[|f.zone|..];
            Lookup(t, ["run"]) == z && z in t && z + [Mnt] !in t && Stack(t, z, |z|)
  {
    hide Layout, Frame.Good, Grounded, Vacant, PFS, BACKINGROOT, PFSHOLDER, ZONEROOT, ZRUNHOLDER;
    RunDirs(f, names);
    RunFirst(f);
    var e: Path := [];
    assert e + ["run"] == ["run"];
    LookupName(t, e, "run");
    RootTop(t);
    TopSteps(t, ROOT + [Dir("run")]);
    ResolveExtends(t, [], ["run"]);
  }

  lemma SwapIsApart(f: Frame, z: Loc, b: Loc)
    requires Routed(f)
    requires z == ROOT + ZoneRun(f)[|f.zone|..] && b == ROOT + [Dir(ZRUNHOLDER), Mnt]
    ensures !(z <= b) && !(b <= z)
  {
    hide Layout, Routed, Frame.Good, Valid, Grounded, Vacant, ZRUNHOLDER;
    RunFirst(f);
    ParkIsNotRun();
    SameFirstName(ROOT + [Dir("run")], z);
    SameFirstName(z, b);
    SameFirstName(b, z);
    assert b[1] == Dir(ZRUNHOLDER);
  }

  lemma SwapGeometry(f: Frame, z: Loc, w: Loc, h: Loc)
    requires Routed(f) && z == ROOT + ZoneRun(f)[|f.zone|..]
    requires w == f.Put()[if |z| <= |f.Put()| then |z| else 0..] + f.src["run"]
    requires h == f.Hold()[if |z| <= |f.Hold()| then |z| else 0..] + [Dir("run"), Mnt]
    ensures f.Put() + f.src["run"] == z + w && f.Slot("run") == z + h
    ensures 1 < |h| < |w| && !(w <= h) && !(h <= w)
  {
    hide Layout, Frame.Good, Valid, Grounded, Vacant, PFS, BACKINGROOT, PFSHOLDER, ZONEROOT, RUN_DIR, ZRUNHOLDER,
         ROOT, Frame.Slot, Frame.Put, Frame.Hold, ZoneRun, ZoneRunDir;
    SwapPlaces(f, z, w, h);
    SwapCompares(f);
    PrefixCancel(z, w, h);
    PrefixCancel(z, h, w);
  }

  /** The real `/run` and its slot, as places below the zone's `/run`. */
  lemma SwapPlaces(f: Frame, z: Loc, w: Loc, h: Loc)
    requires Routed(f) && z == ROOT + ZoneRun(f)[|f.zone|..]
    requires w == f.Put()[if |z| <= |f.Put()| then |z| else 0..] + f.src["run"]
    requires h == f.Hold()[if |z| <= |f.Hold()| then |z| else 0..] + [Dir("run"), Mnt]
    ensures f.Put() + f.src["run"] == z + w && f.Slot("run") == z + h && |h| > 1
  {
    hide Layout, Frame.Good, Valid, Grounded, Vacant, PFS, BACKINGROOT, PFSHOLDER, ZONEROOT, RUN_DIR, ZRUNHOLDER;
    ZoneRunAbove(f);
    PrefixTail(z, f.Put());
    PrefixTail(z, f.Hold());
    var p, q := f.Put()[|z|..], f.Hold()[|z|..];
    assert (z + p) + f.src["run"] == z + (p + f.src["run"]);
    assert (z + q) + [Dir("run"), Mnt] == z + (q + [Dir("run"), Mnt]);
  }

  lemma SwapCompares(f: Frame)
    requires Routed(f)
    ensures var w, h := f.Put() + f.src["run"], f.Slot("run"); |h| < |w| && !(w <= h) && !(h <= w)
  {
    hide Layout, Frame.Good, Valid, Grounded, Vacant, PFS, BACKINGROOT, PFSHOLDER, ZONEROOT, RUN_DIR, ZRUNHOLDER;
    Shape(f);
    SlotApart(f, "run", f.src["run"]);
    RunFirst(f);
    StashedShape(f, "run");
  }

  lemma SwapVacancy(f: Frame, names: set<Name>, b: Loc)
    requires Routed(f) && "run" !in names && b == ROOT + [Dir(ZRUNHOLDER), Mnt]
    ensures Vacant(Layout(f, names), b) && Vacant(Layout(f, names), f.Slot("run"))
  {
    hide Layout, Frame.Good, Valid, Grounded, PFS, BACKINGROOT, PFSHOLDER, ZONEROOT, RUN_DIR, ZRUNHOLDER;
    ParkIsVacant(f, names);
    assert ROOT + [Dir(ZRUNHOLDER)] + [Mnt] == b;
    VacantBelow(Layout(f, names), ROOT + [Dir(ZRUNHOLDER)], b);
    SlotIsVacant(f, names, "run");
  }

  /** Before the swap, every path that the swap uses leads where it should. */
  lemma SwapFits(t: Table, f: Frame, names: set<Name>) returns (z: Loc, b: Loc, w: Loc, h: Loc)
    requires Routed(f) && "run" !in names && t == Layout(f, names)
    ensures Ready(t, z, b, w, h)
    ensures z + w == f.Put() + f.src["run"] && z + h == f.Slot("run")
  {
    hide Layout, Frame.Good, Grounded, Stack, Vacant, PFS, BACKINGROOT, PFSHOLDER, ZONEROOT, RUN_DIR, ZRUNHOLDER;
    Shape(f);
    ZoneRunAbove(f);
    RunFirst(f);
    z, b := ROOT + ZoneRun(f)[|f.zone|..], ROOT + [Dir(ZRUNHOLDER), Mnt];
    w, h := f.Put()[|z|..] + f.src["run"], f.Hold()[|z|..] + [Dir("run"), Mnt];
    SwapGeometry(f, z, w, h);
    ZoneRunStack(t, f, names);
    SwapIsApart(f, z, b);
    SwapVacancy(f, names, b);
    BackingNameLookup(f, names, "run");
    ResolveExtends(t, [], BACKINGROOT + ["run"]);
    HolderLookup(f, names, "run");
    assert f.Hold() + [Dir("run")] + [Mnt] == f.Slot("run");
  }

  lemma VacantBelow(t: RawTable, a: Loc, b: Loc)
    requires Vacant(t, a) && a <= b
    ensures Vacant(t, b)
  {
    forall k | k in t
      ensures !(b <= k)
    {
      PrefixLeft(a, b[|a|..], k);
      PrefixTail(a, b);
    }
  }

  // ---------------------------------------------------------------------------------------------
  // The loops
  // ---------------------------------------------------------------------------------------------

  /** The swap stashes the real `/run`, as a plain move would. */
  lemma SwapStashesRun(s: System, f: Frame, names: set<Name>)
    requires Routed(f) && "run" !in names && s.table == Layout(f, names) && !s.swapDir
    ensures var r := SwapRun(s);
            r.Done? && r.s.table == Layout(f, names + {"run"}) && r.s.holder == s.holder && !r.s.swapDir
  {
    hide Layout, Relocate, Routed, Frame.Good, Valid, Grounded, Vacant, Swappable, Ready, BACKINGROOT, PFSHOLDER,
         ZRUNHOLDER;
    var z, b, w, h := SwapFits(s.table, f, names);
    ReadyShape(s.table, z, b, w, h);
    ParkMove(s.table, z, b, w, h);
    var s4 := ParkZoneRun(s).s;
    RealRunMove(s.table, s4.table, z, b, w, h);
    var s5 := RealRunToRun(s4).s;
    HolderMove(s.table, s4.table, s5.table, z, b, w, h);
    var s6 := RealRunToHolder(s5).s;
    UnparkMove(s.table, s4.table, s5.table, s6.table, z, b, w, h);
    SwapIsMove(s.table, z, b, w, h);
    RunIsSource(f);
    StashGivesLayout(f, names, "run");
    var t7 := MoveStep(s6, [ZRUNHOLDER], ["run"]).s.table;
    assert t7 == Layout(f, names + {"run"});
    SwapDirIsFree(t7, f, names + {"run"});
  }

  lemma RunIsSource(f: Frame)
    requires Routed(f)
    ensures f.Good() && "run" in f.src && ZoneRun(f) in f.u
  {
  }

  lemma SwapDirIsFree(t: Table, f: Frame, names: set<Name>)
    requires Routed(f) && t == Layout(f, names)
    ensures !IsMount(t, [ZRUNHOLDER])
  {
    hide Layout, Routed, Frame.Good, Grounded, ZRUNHOLDER;
    ParkIsVacant(f, names);
    var sw := ROOT + [Dir(ZRUNHOLDER)];
    VacantBelow(t, sw, sw + [Mnt]);
    VacantSpot(t, sw + [Mnt]);
    VacantSpot(t, sw);
    NameLookup(t, ZRUNHOLDER, sw);
  }
}
