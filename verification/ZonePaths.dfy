/** Where the paths that `enter` and `exit` name lead, in every table those two pass through. */
module ZonePaths {
  import opened MountTable
  import opened MountPaths
  import opened ZoneLayout
  import opened ZoneProtocol

  /** The zone's own `/run/PivotZone`, relative to which the frame's two directories lie. */
  function ZoneRunDir(f: Frame): Loc {
    Resolve(f.u, f.zone, RUN_DIR)
  }

  function ZoneRun(f: Frame): Loc {
    Resolve(f.u, f.zone, ["run"])
  }

  /** The frame's places are the ones its paths lead to. */
  ghost predicate Routed(f: Frame) {
    && f.Good()
    && f.backing == ZoneRunDir(f) + [Dir("backingroot")]
    && f.hold == ZoneRunDir(f) + [Dir("pfsholder")]
    && ZoneRun(f) in f.u
    && f.zone <= ZoneRun(f) && ZoneRun(f) + [Dir("PivotZone")] <= ZoneRunDir(f)
    && Vacant(f.u, f.zone + [Dir(ZRUNHOLDER)])
    && (forall i | i in PFS :: i in f.src <==> IsMount(f.u, [i]))
    && (forall i | i in f.src :: i in PFS && f.src[i] == Lookup(f.u, [i]))
    && "run" in f.src
    && Lookup(f.u, RUN_DIR) + [Dir("zoneroot")] < f.zone
    && f.zone == Lookup(f.u, ZONEROOT)
    && f.src["run"] + [Dir("PivotZone")] <= Lookup(f.u, RUN_DIR)
    && ROOT + [Dir("run")] <= f.src["run"]
  }

  lemma GoodShape(f: Frame)
    requires f.Good()
    ensures f.zone < f.backing && f.zone < f.hold
    ensures f.zone in f.u && f.zone + [Mnt] !in f.u
    ensures f.backing[|f.backing| - 1] != Mnt && f.hold[|f.hold| - 1] != Mnt
    ensures forall i | i in f.src :: f.src[i] in f.u
  {
  }

  lemma PathNames()
    ensures RUN_DIR + ["backingroot"] == BACKINGROOT
    ensures RUN_DIR + ["pfsholder"] == PFSHOLDER
    ensures RUN_DIR + ["zoneroot"] == ZONEROOT
    ensures BACKINGROOT + RUN_DIR + ["zoneroot"] == BACKINGROOT + ZONEROOT
    ensures ["run", "PivotZone"] == RUN_DIR
  {
  }

  lemma Shape(f: Frame)
    requires Routed(f)
    ensures f.Good() && Valid(f.u)
    ensures f.zone < f.backing && f.zone < f.hold && f.zone <= ZoneRun(f)
    ensures ROOT in f.u && ROOT + [Mnt] !in f.u
    ensures MountLoc(f.zone) && f.zone in f.u && f.zone != ROOT
    ensures f.zone[..|f.zone| - 1] + [Mnt] == f.zone
    ensures |f.src["run"]| < |f.zone| && f.src["run"] <= f.zone && ROOT + [Dir("run")] <= f.src["run"]
    ensures f.src["run"] == Lookup(f.u, ["run"])
  {
    hide Lookup, ZoneRunDir, ZoneRun, Grounded, Vacant, PFS, RUN_DIR, ZRUNHOLDER;
    assert MountLoc(f.zone);
    SnocLast(f.zone);
    var d := Lookup(f.u, RUN_DIR);
    PrefixLeft(f.src["run"], [Dir("PivotZone")], d);
    PrefixLeft(d, [Dir("zoneroot")], f.zone);
    assert f.src["run"] <= d <= f.zone;
  }

  // ---------------------------------------------------------------------------------------------
  // Which places are taken
  // ---------------------------------------------------------------------------------------------

  lemma ZoneSpot(f: Frame, names: set<Name>, s: Loc)
    requires f.Good()
    requires !(f.hold <= f.zone + s) && !(f.backing <= f.zone + s)
    ensures f.zone + s in f.u <==> ROOT + s in Layout(f, names)
    ensures f.zone + s in f.u ==> Layout(f, names)[ROOT + s] == f.u[f.zone + s]
  {
    hide Layout;
    var k, q := f.zone + s, ROOT + s;
    assert k[|f.zone|..] == s;
    if k in f.u {
      LayoutAt(f, names, k);
    }
    if q in Layout(f, names) {
      var k' := LayoutFrom(f, names, q);
      PrefixUnshift(f.zone, f.hold, k);
      PrefixUnshift(f.zone, f.backing, k);
      ZoneOrigin(f, names, k', s);
    }
  }

  lemma ZoneOrigin(f: Frame, names: set<Name>, k': Loc, s: Loc)
    requires f.Good() && k' in f.u && f.Place(names, k') == ROOT + s
    requires !(f.Hold() <= ROOT + s) && !(f.Put() <= ROOT + s)
    ensures k' == f.zone + s
  {
    PlacedBelowHold(f, names, k');
    PrefixLeft(f.Put(), k', ROOT + s);
    assert (ROOT + s)[1..] == s;
    PrefixTail(f.zone, k');
  }

  lemma OldSpot(f: Frame, names: set<Name>, s: Loc)
    requires f.Good() && s != []
    ensures f.Put() + s in Layout(f, names) <==> (s in f.u && !(f.zone <= s) && !f.Stashed(names, s))
    ensures f.Put() + s in Layout(f, names) ==> Layout(f, names)[f.Put() + s] == f.u[s]
  {
    hide Layout;
    if s in f.u && !(f.zone <= s) && !f.Stashed(names, s) {
      LayoutAt(f, names, s);
    }
    if f.Put() + s in Layout(f, names) {
      var k := LayoutFrom(f, names, f.Put() + s);
      PlacedBelowPut(f, names, k, s);
      PrefixLeft(f.Put(), k, f.Put() + s);
      PrefixLeft(f.Put(), s, f.Put() + s);
    }
  }

  lemma SlotSpot(f: Frame, names: set<Name>, i: Name)
    requires f.Good()
    ensures f.Hold() + [Mnt] !in Layout(f, names)
    ensures f.Slot(i) in Layout(f, names) <==> (i in names && i in f.src)
    ensures f.Slot(i) + [Mnt] !in Layout(f, names)
    ensures i in names && i in f.src ==> Layout(f, names)[f.Slot(i)] == f.u[f.src[i]]
  {
    hide Layout;
    if i in names && i in f.src {
      LayoutAt(f, names, f.src[i]);
      assert f.Slot(i) + f.src[i][|f.src[i]|..] == f.Slot(i);
    }
    SlotOnly(f, names, i, f.Hold() + [Mnt], [Mnt]);
    SlotOnly(f, names, i, f.Slot(i), [Dir(i), Mnt]);
    SlotOnly(f, names, i, f.Slot(i) + [Mnt], [Dir(i), Mnt, Mnt]);
  }

  /** What lies below the holder was stashed: it is `rest` below the slot of its name. */
  lemma SlotOnly(f: Frame, names: set<Name>, i: Name, q: Loc, x: Loc)
    requires f.Good() && q == f.Hold() + x && x != []
    ensures q in Layout(f, names) ==> |x| >= 2 && x[0].Dir? && x[1] == Mnt && x[0].name in names && x[0].name in f.src
                                      && f.src[x[0].name] + x[2..] in f.u
  {
    hide Layout, Frame.Good;
    GoodShape(f);
    if q in Layout(f, names) {
      var k := LayoutFrom(f, names, q);
      PrefixLeft(f.Hold(), x, q);
      PlacedBelowHold(f, names, k);
      var j := k[1].name;
      var rest := k[|f.src[j]|..];
      assert q == f.Hold() + ([Dir(j), Mnt] + rest);
      PrefixLeft(f.Hold(), [Dir(j), Mnt] + rest, q);
      assert x == [Dir(j), Mnt] + rest;
      PrefixTail(f.src[j], k);
      assert x[2..] == rest;
    }
  }

  // ---------------------------------------------------------------------------------------------
  // Paths in the zone
  // ---------------------------------------------------------------------------------------------

  lemma LayoutIsRooted(f: Frame, names: set<Name>)
    requires f.Good()
    ensures ROOT in Layout(f, names) && ROOT + [Mnt] !in Layout(f, names)
    ensures Top(Layout(f, names), []) == ROOT && Top(Layout(f, names), ROOT) == ROOT
  {
    hide Layout, Frame.Good;
    GoodShape(f);
    var e: Loc := [];
    assert f.zone + e == f.zone && ROOT + e == ROOT;
    ZoneSpot(f, names, e);
    NotReached(f.hold, f.zone, e, 0);
    NotReached(f.backing, f.zone, e, 0);
    assert e[..0] + [Mnt] == [Mnt];
    ZoneSpot(f, names, [Mnt]);
    assert e + [Mnt] == ROOT;
  }

  /** A path that stays inside the zone leads to the same place in it after the pivot. */
  lemma ZoneLookup(f: Frame, names: set<Name>, p: Path)
    requires f.Good()
    requires var r := Resolve(f.u, f.zone, p); !(f.hold <= r) && !(f.backing <= r)
    ensures f.zone <= Resolve(f.u, f.zone, p)
    ensures Lookup(Layout(f, names), p) == ROOT + Resolve(f.u, f.zone, p)[|f.zone|..]
  {
    hide Layout, Frame.Good;
    GoodShape(f);
    var t := Layout(f, names);
    LayoutIsRooted(f, names);
    ResolveFromTop(t, [], p);
    ResolveFromTop(t, ROOT, p);
    ResolveExtends(f.u, f.zone, p);
    var e: Loc := [];
    var r := Resolve(f.u, f.zone, p)[|f.zone|..];
    PrefixTail(f.zone, Resolve(f.u, f.zone, p));
    forall n | 0 <= n <= |r|
      ensures (f.zone + r[..n] + [Mnt] in f.u) <==> (ROOT + r[..n] + [Mnt] in t)
    {
      var s := r[..n] + [Mnt];
      assert f.zone + r[..n] + [Mnt] == f.zone + s && ROOT + r[..n] + [Mnt] == ROOT + s;
      NotReached(f.hold, f.zone, r, n);
      NotReached(f.backing, f.zone, r, n);
      ZoneSpot(f, names, s);
    }
    assert f.zone + e == f.zone && ROOT + e == ROOT;
    Transport(f.u, f.zone, t, ROOT, e, p, r);
  }

  lemma NotReached(a: Loc, z: Loc, r: Loc, n: nat)
    requires a != [] && a[|a| - 1] != Mnt && n <= |r|
    ensures a <= z + (r[..n] + [Mnt]) ==> a <= z + r
  {
    var q := z + (r[..n] + [Mnt]);
    assert q[|q| - 1] == Mnt;
    if a <= q {
      assert |a| < |q| && a == q[..|a|] == (z + r)[..|a|];
    }
  }

  // ---------------------------------------------------------------------------------------------
  // The paths that the protocol uses
  // ---------------------------------------------------------------------------------------------

  lemma RunDirs(f: Frame, names: set<Name>)
    requires Routed(f)
    ensures Lookup(Layout(f, names), ["run"]) == ROOT + ZoneRun(f)[|f.zone|..]
    ensures Lookup(Layout(f, names), RUN_DIR) == ROOT + ZoneRunDir(f)[|f.zone|..]
    ensures ROOT + ZoneRun(f)[|f.zone|..] in Layout(f, names)
    ensures f.zone < ZoneRunDir(f)
    ensures f.Put() == ROOT + ZoneRunDir(f)[|f.zone|..] + [Dir("backingroot")]
    ensures f.Hold() == ROOT + ZoneRunDir(f)[|f.zone|..] + [Dir("pfsholder")]
  {
    hide Layout, Frame.Good, Valid, Vacant, Grounded, PFS, RUN_DIR, BACKINGROOT, PFSHOLDER, ZONEROOT, ZRUNHOLDER;
    Shape(f);
    PathNames();
    assert f.backing[|f.zone|..] == ZoneRunDir(f)[|f.zone|..] + [Dir("backingroot")];
    assert f.hold[|f.zone|..] == ZoneRunDir(f)[|f.zone|..] + [Dir("pfsholder")];
    ZoneLookup(f, names, RUN_DIR);
    ZoneLookup(f, names, ["run"]);
    PrefixTail(f.zone, ZoneRun(f));
    ZoneSpot(f, names, ZoneRun(f)[|f.zone|..]);
  }

  lemma BackingLookup(f: Frame, names: set<Name>)
    requires Routed(f)
    ensures Lookup(Layout(f, names), BACKINGROOT) == f.Put() + ROOT
    ensures f.Put() + ROOT in Layout(f, names)
    ensures Layout(f, names)[f.Put() + ROOT] == f.u[ROOT]
  {
    hide Layout, Frame.Good, Valid, Vacant, Grounded, PFS, RUN_DIR, BACKINGROOT, PFSHOLDER, ZONEROOT, ZRUNHOLDER;
    Shape(f);
    PathNames();
    RunDirs(f, names);
    LookupName(Layout(f, names), RUN_DIR, "backingroot");
    OldSpot(f, names, ROOT);
    OldSpot(f, names, ROOT + [Mnt]);
    assert f.Put() + ROOT + [Mnt] == f.Put() + (ROOT + [Mnt]);
    var r := f.Put() + ROOT;
    forall n | |f.Put()| < n <= |r|
      ensures r[..n] in Layout(f, names) && r[n - 1] == Mnt
    {
      assert r[..n] == r;
    }
    TopIs(Layout(f, names), f.Put(), r);
  }

  lemma NotYetZone(f: Frame, i: Name, n: nat)
    requires Routed(f) && i in PFS && n <= |Lookup(f.u, [i])|
    ensures !(f.zone <= Lookup(f.u, [i])[..n])
    ensures ROOT + [Dir(i)] <= Lookup(f.u, [i])
  {
    hide Layout, Frame.Good, Valid, Vacant, Grounded, PFS, RUN_DIR, BACKINGROOT, PFSHOLDER, ZONEROOT, ZRUNHOLDER;
    Shape(f);
    PathNames();
    LookupShape(f.u, [i]);
    var a := Lookup(f.u, [i]);
    SameFirstName(ROOT + [Dir("run")], f.src["run"]);
    SameFirstName(f.src["run"], f.zone);
    SameFirstName(ROOT + [Dir(i)], a);
    SameFirstName(f.zone, a[..n]);
  }

  lemma SameFirstName(a: Loc, q: Loc)
    ensures a <= q && |a| > 1 ==> q[1] == a[1]
  {
  }

  lemma NameTop(t: RawTable, i: Name)
    requires Valid(t)
    ensures Lookup(t, [i]) == Top(t, ROOT + [Dir(i)])
  {
    RootTop(t);
    ResolveFromTop(t, [], [i]);
    ResolveName(t, ROOT, i);
  }

  /** The mounts stacked at the real `/i` are crossed one by one. */
  lemma RealSteps(f: Frame, i: Name)
    requires Routed(f) && i in PFS
    ensures var a := Lookup(f.u, [i]);
            && ROOT + [Dir(i)] <= a && a + [Mnt] !in f.u
            && (forall n | 2 < n <= |a| :: a[..n] in f.u && a[n - 1] == Mnt)
  {
    hide Layout, Frame.Good, Vacant, Grounded, PFS, RUN_DIR, BACKINGROOT, PFSHOLDER, ZONEROOT, ZRUNHOLDER;
    Shape(f);
    NameTop(f.u, i);
    TopSteps(f.u, ROOT + [Dir(i)]);
    TopExtends(f.u, ROOT + [Dir(i)]);
    var a := Lookup(f.u, [i]);
    forall n | 2 < n <= |a|
      ensures a[..n] in f.u && a[n - 1] == Mnt
    {
      assert |ROOT + [Dir(i)]| < n <= |Top(f.u, ROOT + [Dir(i)])|;
    }
  }

  /** A real file system that is not stashed is below `_BACKINGROOT`, under its own name. */
  lemma BackingNameLookup(f: Frame, names: set<Name>, i: Name)
    requires Routed(f) && i in PFS && i !in names
    ensures Lookup(Layout(f, names), BACKINGROOT + [i]) == f.Put() + Lookup(f.u, [i])
    ensures IsMount(Layout(f, names), BACKINGROOT + [i]) <==> i in f.src
  {
    hide Layout, Frame.Good, Valid, Vacant, Grounded, PFS, RUN_DIR, BACKINGROOT, PFSHOLDER, ZONEROOT, ZRUNHOLDER;
    Shape(f);
    PathNames();
    var t, a := Layout(f, names), Lookup(f.u, [i]);
    BackingLookup(f, names);
    LookupName(t, BACKINGROOT, i);
    NotYetZone(f, i, |a|);
    RealSteps(f, i);
    var l, r := f.Put() + ROOT + [Dir(i)], f.Put() + a;
    UnstashedTop(f, names, i, l, r);
    NotStashed(f, names, i, a);
    OldSpot(f, names, a);
    assert a[..|a|] == a;
  }

  lemma UnstashedTop(f: Frame, names: set<Name>, i: Name, l: Loc, r: Loc)
    requires Routed(f) && i in PFS && i !in names
    requires l == f.Put() + ROOT + [Dir(i)] && r == f.Put() + Lookup(f.u, [i])
    ensures Top(Layout(f, names), l) == r
  {
    hide Layout, Frame.Good, Valid, Vacant, Grounded, PFS, RUN_DIR, BACKINGROOT, PFSHOLDER, ZONEROOT, ZRUNHOLDER;
    Shape(f);
    PathNames();
    var a := Lookup(f.u, [i]);
    RealSteps(f, i);
    PrefixCancel(f.Put(), ROOT + [Dir(i)], a);
    assert l == f.Put() + (ROOT + [Dir(i)]);
    forall n | |l| < n <= |r|
      ensures r[..n] in Layout(f, names) && r[n - 1] == Mnt
    {
      UnstashedStep(f, names, i, n - |f.Put()|);
    }
    OldSpot(f, names, a + [Mnt]);
    assert r + [Mnt] == f.Put() + (a + [Mnt]);
    TopIs(Layout(f, names), l, r);
  }

  lemma RootTop(t: RawTable)
    requires Valid(t)
    ensures Top(t, []) == ROOT && Top(t, ROOT) == ROOT
  {
    var e: Loc := [];
    assert e + [Mnt] == ROOT;
  }

  lemma NotStashed(f: Frame, names: set<Name>, i: Name, k: Loc)
    requires ROOT + [Dir(i)] <= k && i !in names
    ensures !f.Stashed(names, k)
  {
    assert k[1] == (ROOT + [Dir(i)])[1] == Dir(i);
  }

  lemma UnstashedStep(f: Frame, names: set<Name>, i: Name, n: nat)
    requires Routed(f) && i in PFS && i !in names
    requires 2 < n <= |Lookup(f.u, [i])|
    requires Lookup(f.u, [i])[..n] in f.u && Lookup(f.u, [i])[n - 1] == Mnt
    ensures var r := f.Put() + Lookup(f.u, [i]);
            r[..|f.Put()| + n] in Layout(f, names) && r[|f.Put()| + n - 1] == Mnt
  {
    hide Layout, Frame.Good, Valid, Vacant, Grounded, PFS, RUN_DIR, BACKINGROOT, PFSHOLDER, ZONEROOT, ZRUNHOLDER;
    Shape(f);
    PathNames();
    var a := Lookup(f.u, [i]);
    NotYetZone(f, i, n);
    assert ROOT + [Dir(i)] <= a[..n] by {
      assert a[..n][..2] == a[..2];
    }
    NotStashed(f, names, i, a[..n]);
    OldSpot(f, names, a[..n]);
    assert (f.Put() + a)[..|f.Put()| + n] == f.Put() + a[..n];
  }

  /** A stashed file system has left the directory, or the mount, it covered. */
  lemma BackingGoneLookup(f: Frame, names: set<Name>, i: Name)
    requires Routed(f) && i in f.src && i !in names
    ensures var b := Lookup(Layout(f, names + {i}), BACKINGROOT + [i]); b + [Mnt] == f.Put() + f.src[i]
  {
    hide Layout, Frame.Good, Valid, Vacant, Grounded, PFS, RUN_DIR, BACKINGROOT, PFSHOLDER, ZONEROOT, ZRUNHOLDER;
    Shape(f);
    PathNames();
    var t, a := Layout(f, names + {i}), f.src[i];
    BackingLookup(f, names + {i});
    LookupName(t, BACKINGROOT, i);
    StashedShape(f, i);
    StashedTop(f, names, i, f.Put() + ROOT + [Dir(i)], f.Put() + a[..|a| - 1]);
    assert f.Put() + a[..|a| - 1] + [Mnt] == f.Put() + (a[..|a| - 1] + [Mnt]);
  }

  lemma StashedShape(f: Frame, i: Name)
    requires Routed(f) && i in f.src
    ensures var a := f.src[i]; ROOT + [Dir(i)] < a && a[..|a| - 1] + [Mnt] == a && ROOT + [Dir(i)] <= a[..|a| - 1]
  {
    hide Layout, Frame.Good, Vacant, Grounded, PFS, RUN_DIR, BACKINGROOT, PFSHOLDER, ZONEROOT, ZRUNHOLDER;
    Shape(f);
    var a := f.src[i];
    LookupShape(f.u, [i]);
    assert MountLoc(a);
    assert a[..2] == ROOT + [Dir(i)];
    assert a[|a| - 1] == Mnt && (ROOT + [Dir(i)])[1] == Dir(i);
  }

  lemma StashedTop(f: Frame, names: set<Name>, i: Name, l: Loc, r: Loc)
    requires Routed(f) && i in f.src && i !in names
    requires l == f.Put() + ROOT + [Dir(i)] && r == f.Put() + f.src[i][..|f.src[i]| - 1]
    ensures Top(Layout(f, names + {i}), l) == r
  {
    hide Layout, Frame.Good, Valid, Vacant, Grounded, PFS, RUN_DIR, BACKINGROOT, PFSHOLDER, ZONEROOT, ZRUNHOLDER;
    Shape(f);
    PathNames();
    var t, a := Layout(f, names + {i}), f.src[i];
    RealSteps(f, i);
    StashedShape(f, i);
    PrefixCancel(f.Put(), ROOT + [Dir(i)], a[..|a| - 1]);
    assert l == f.Put() + (ROOT + [Dir(i)]);
    forall n | |l| < n <= |r|
      ensures r[..n] in t && r[n - 1] == Mnt
    {
      LowerStep(f, names, i, n - |f.Put()|);
    }
    assert r + [Mnt] == f.Put() + (a[..|a| - 1] + [Mnt]) == f.Put() + a;
    assert f.Stashed(names + {i}, a) by {
      assert a[1] == (ROOT + [Dir(i)])[1];
    }
    OldSpot(f, names + {i}, a);
    TopIs(t, l, r);
  }

  lemma LowerStep(f: Frame, names: set<Name>, i: Name, n: nat)
    requires Routed(f) && i in f.src && i !in names
    requires 2 < n < |f.src[i]|
    requires f.src[i][..n] in f.u && f.src[i][n - 1] == Mnt
    ensures var r := f.Put() + f.src[i][..|f.src[i]| - 1];
            r[..|f.Put()| + n] in Layout(f, names + {i}) && r[|f.Put()| + n - 1] == Mnt
  {
    hide Layout, Frame.Good, Valid, Vacant, Grounded, PFS, RUN_DIR, BACKINGROOT, PFSHOLDER, ZONEROOT, ZRUNHOLDER;
    Shape(f);
    PathNames();
    var a := f.src[i];
    NotYetZone(f, i, n);
    assert !(a <= a[..n]);
    assert a[..n][1] == Dir(i) by {
      assert a[1] == (ROOT + [Dir(i)])[1];
    }
    assert !f.Stashed(names + {i}, a[..n]);
    OldSpot(f, names + {i}, a[..n]);
    assert (f.Put() + a[..|a| - 1])[..|f.Put()| + n] == f.Put() + a[..n];
  }

  lemma HolderLookup(f: Frame, names: set<Name>, i: Name)
    requires Routed(f)
    ensures Lookup(Layout(f, names), PFSHOLDER) == f.Hold()
    ensures !(i in names && i in f.src) ==> Lookup(Layout(f, names), PFSHOLDER + [i]) == f.Hold() + [Dir(i)]
    ensures i in names && i in f.src ==> Lookup(Layout(f, names), PFSHOLDER + [i]) == f.Slot(i)
  {
    hide Layout, Frame.Good, Valid, Vacant, Grounded, PFS, RUN_DIR, BACKINGROOT, PFSHOLDER, ZONEROOT, ZRUNHOLDER;
    Shape(f);
    PathNames();
    var t := Layout(f, names);
    RunDirs(f, names);
    LookupName(t, RUN_DIR, "pfsholder");
    SlotSpot(f, names, i);
    TopIs(t, f.Hold(), f.Hold());
    LookupName(t, PFSHOLDER, i);
    var l := f.Hold() + [Dir(i)];
    assert l + [Mnt] == f.Slot(i);
    if i in names && i in f.src {
      assert f.Slot(i)[..|l| + 1] == f.Slot(i);
      TopIs(t, l, f.Slot(i));
    } else {
      TopIs(t, l, l);
    }
  }

  lemma BackingRunDirLookup(f: Frame)
    requires Routed(f)
    ensures Lookup(Layout(f, {}), BACKINGROOT + RUN_DIR) == f.Put() + Lookup(f.u, RUN_DIR)
  {
    hide Layout, Frame.Good, Vacant, Grounded, PFS, RUN_DIR, BACKINGROOT, PFSHOLDER, ZONEROOT, ZRUNHOLDER;
    Shape(f);
    var t, d := Layout(f, {}), Lookup(f.u, RUN_DIR);
    BackingLookup(f, {});
    ResolveCompose(t, [], BACKINGROOT, RUN_DIR);
    var e: Loc := [];
    RootTop(f.u);
    ResolveFromTop(f.u, e, RUN_DIR);
    ResolveFromTop(f.u, ROOT, RUN_DIR);
    assert e + d == d && e + ROOT == ROOT;
    forall n | 0 <= n <= |d|
      ensures (e + d[..n] + [Mnt] in f.u) <==> (f.Put() + d[..n] + [Mnt] in t)
    {
      OldSpot(f, {}, d[..n] + [Mnt]);
      assert e + d[..n] + [Mnt] == d[..n] + [Mnt];
      assert f.Put() + d[..n] + [Mnt] == f.Put() + (d[..n] + [Mnt]);
      assert |d[..n] + [Mnt]| < |f.zone|;
    }
    Transport(f.u, e, t, f.Put(), ROOT, RUN_DIR, d);
  }

  /** The real root's directory for the zone, which is vacant while the zone is the root. */
  lemma ZoneRootLookup(f: Frame)
    requires Routed(f)
    ensures Lookup(Layout(f, {}), BACKINGROOT + ZONEROOT) + [Mnt] == f.Put() + f.zone
  {
    hide Layout, Frame.Good, Valid, Vacant, Grounded, PFS, RUN_DIR, BACKINGROOT, PFSHOLDER, ZONEROOT, ZRUNHOLDER;
    Shape(f);
    PathNames();
    var t, d := Layout(f, {}), Lookup(f.u, RUN_DIR);
    BackingRunDirLookup(f);
    LookupName(t, BACKINGROOT + RUN_DIR, "zoneroot");
    var z := f.zone;
    var r := f.Put() + z[..|z| - 1];
    ZoneRootTop(f, f.Put() + d + [Dir("zoneroot")], r);
    assert z[..|z| - 1] + [Mnt] == z;
    assert r + [Mnt] == f.Put() + (z[..|z| - 1] + [Mnt]);
  }

  lemma UncoveredZoneStep(f: Frame, n: nat)
    requires Routed(f) && 0 < n < |f.zone|
    requires f.zone[..n] in f.u && f.zone[n - 1] == Mnt
    ensures var r := f.Put() + f.zone[..|f.zone| - 1];
            r[..|f.Put()| + n] in Layout(f, {}) && r[|f.Put()| + n - 1] == Mnt
  {
    hide Layout, Frame.Good, Valid, Vacant, Grounded, PFS, RUN_DIR, BACKINGROOT, PFSHOLDER, ZONEROOT, ZRUNHOLDER;
    Shape(f);
    OldSpot(f, {}, f.zone[..n]);
    assert (f.Put() + f.zone[..|f.zone| - 1])[..|f.Put()| + n] == f.Put() + f.zone[..n];
  }

  lemma ZoneRootTop(f: Frame, l: Loc, r: Loc)
    requires Routed(f)
    requires l == f.Put() + Lookup(f.u, RUN_DIR) + [Dir("zoneroot")] && r == f.Put() + f.zone[..|f.zone| - 1]
    ensures Top(Layout(f, {}), l) == r
  {
    hide Layout, Frame.Good, Valid, Vacant, Grounded, Top, Resolve, PFS, RUN_DIR, BACKINGROOT, PFSHOLDER, ZONEROOT,
         ZRUNHOLDER;
    Shape(f);
    ZoneSteps(f);
    var d, z := Lookup(f.u, RUN_DIR), f.zone;
    var l', r' := d + [Dir("zoneroot")], z[..|z| - 1];
    PrefixCancel(f.Put(), l', r');
    assert l == f.Put() + l';
    forall n | |l| < n <= |r|
      ensures r[..n] in Layout(f, {}) && r[n - 1] == Mnt
    {
      UncoveredZoneStep(f, n - |f.Put()|);
    }
    assert r + [Mnt] == f.Put() + (r' + [Mnt]);
    OldSpot(f, {}, z);
    TopIs(Layout(f, {}), l, r);
  }

  lemma ZoneSteps(f: Frame)
    requires Routed(f)
    ensures var l := Lookup(f.u, RUN_DIR) + [Dir("zoneroot")];
            && l <= f.zone[..|f.zone| - 1]
            && (forall n | |l| < n <= |f.zone| :: f.zone[..n] in f.u && f.zone[n - 1] == Mnt)
  {
    hide Layout, Frame.Good, Valid, Vacant, Grounded, PFS, RUN_DIR, BACKINGROOT, PFSHOLDER, ZONEROOT, ZRUNHOLDER;
    PathNames();
    LookupName(f.u, RUN_DIR, "zoneroot");
    TopSteps(f.u, Lookup(f.u, RUN_DIR) + [Dir("zoneroot")]);
  }
}
