/** Building a zone, taking it down again, and the whole life of a zone. */
module ZoneBuild {
  import opened Core
  import opened MountTable
  import opened MountPaths
  import opened MountLists
  import opened ZoneProtocol
  import opened ZonePaths
  import opened ZoneTheorems

  // ---------------------------------------------------------------------------------------------
  // build and destroy
  // ---------------------------------------------------------------------------------------------

  /** Mount points in or below one of `_PFS`, except those below `/run/user` and `_RUN_DIR`. */
  predicate Wanted(p: Path) {
    p != [] && p[0] in PFS && !(["run", "user"] < p) && !(RUN_DIR < p)
  }

  /** The line of `/proc/mounts` for the mount at `k`, with `none` for the device. */
  function Line(t: RawTable, options: Loc -> string, k: Loc): Entry
    requires k in t
  {
    Entry("none", Names(k), t[k].kind, options(k))
  }

  /** The mounts, hidden ones included, whose line is `e`. */
  function MountsOf(t: RawTable, options: Loc -> string, e: Entry): set<Loc> {
    set k | k in t && Line(t, options, k) == e
  }

  /** What `__get_pfs_mounts` makes of `/proc/mounts`: the wanted lines, one for each mount, sorted. */
  ghost predicate PfsMounts(t: RawTable, options: Loc -> string, es: seq<Entry>) {
    && Sorted(es)
    && forall e :: multiset(es)[e] == if Wanted(e.path) then |MountsOf(t, options, e)| else 0
  }

  /** The mounts of `build`: the zone's device, the file systems of `_PFS`, and the real root. */
  function Build(t: Table, zoneFs: Fs, es: seq<Entry>): Table
    requires forall e | e in es :: e.path != []
  {
    var mounted := MountAll(Attach(t, ZONEROOT, zoneFs), ZONEROOT, es);
    Attach(mounted, ZONEROOT + BACKINGROOT, mounted[ROOT])
  }

  /** The first `umount` of `destroy`, of the bind in the zone. */
  function Unbind(t: Table): Result<Table> {
    if IsMount(t, ZONEROOT + BACKINGROOT) then Unmount(t, ZONEROOT + BACKINGROOT) else Ok(t)
  }

  /** The `umount`s of `destroy`; `es` is what it reads after the first of them. */
  function Destroy(t: Table, es: seq<Entry>): Result<Table> {
    match Unbind(t)
    case Err(e) => Err(e)
    case Ok(t1) =>
      match UnmountAll(t1, ZONEROOT, es)
      case Err(e) => Err(e)
      case Ok(t2) => if IsMount(t2, ZONEROOT) then Unmount(t2, ZONEROOT) else Ok(t2)
  }

  /** The mounts that `destroy` leaves, whether it raises or not. */
  function DestroyLeaves(t: Table, es: seq<Entry>): Table {
    match Unbind(t)
    case Err(_) => t
    case Ok(t1) =>
      match UnmountAll(t1, ZONEROOT, es)
      case Err(_) => UnmountAllLeaves(t1, ZONEROOT, es)
      case Ok(t2) => if IsMount(t2, ZONEROOT) && Unmount(t2, ZONEROOT).Ok? then Unmount(t2, ZONEROOT).value else t2
  }

  /** `/run` is mounted, and `_RUN_DIR` was created just now: nothing is mounted in it. */
  ghost predicate Fresh(t: RawTable) {
    && IsMount(t, ["run"]) && t[Lookup(t, ["run"])].kind != "autofs"
    && Vacant(t, Lookup(t, ["run"]) + [Dir("PivotZone")])
  }

  /** The mount points are written as `/proc/mounts` writes them. */
  predicate PlainTable(t: RawTable) {
    forall k | k in t :: forall n | n in Names(k) :: PlainName(n)
  }

  lemma ListingFacts(t: RawTable, options: Loc -> string, es: seq<Entry>)
    requires PfsMounts(t, options, es) && PlainTable(t) && Fresh(t)
    ensures Sorted(es)
    ensures forall e | e in es :: PlainPath(e.path) && e.path != [] && Wanted(e.path)
    ensures exists e :: e in es && e.path == ["run"] && !Skipped(e)
  {
    hide Lookup, Sorted, PlainName, Vacant;
    forall e | e in es
      ensures PlainPath(e.path) && Wanted(e.path)
    {
      assert e in multiset(es);
      assert MountsOf(t, options, e) != {};
      var k :| k in MountsOf(t, options, e);
      assert Names(k) == e.path;
    }
    var k := Lookup(t, ["run"]);
    var e := Line(t, options, k);
    NamesOfLookup(t, ["run"]);
    assert k in MountsOf(t, options, e);
    assert Wanted(e.path);
    assert e in multiset(es);
  }

  lemma ZoneIsMountable(t: Table, zoneFs: Fs, es: seq<Entry>)
    requires Sorted(es) && forall e | e in es :: PlainPath(e.path)
    ensures var z := Attach(t, ZONEROOT, zoneFs);
            && Mountable(z, ZONEROOT, es)
            && Unmount(z, ZONEROOT) == Ok(t)
            && Lookup(z, ZONEROOT) == Lookup(t, ZONEROOT) + [Mnt]
            && z == t[Lookup(t, ZONEROOT) + [Mnt] := zoneFs]
  {
    hide Lookup, Unmount, Valid, Sorted, PlainPath;
    assert RUN_DIR + ["zoneroot"] == ZONEROOT;
    AttachedLookup(t, RUN_DIR, "zoneroot", zoneFs);
    UnmountUndoesAttach(t, RUN_DIR, "zoneroot", zoneFs);
  }

  /** The first `umount` of `destroy` undoes the last mount of `build`. */
  lemma UnbindUndoesBind(t: Table, zoneFs: Fs, es: seq<Entry>)
    requires Sorted(es) && forall e | e in es :: PlainPath(e.path)
    ensures forall e | e in es :: e.path != []
    ensures Unbind(Build(t, zoneFs, es)) == Ok(MountAll(Attach(t, ZONEROOT, zoneFs), ZONEROOT, es))
  {
    hide Lookup, Attach, Unmount, Valid, Sorted, MountAll, RUN_DIR, IsMount;
    BackingName();
    var m := MountAll(Attach(t, ZONEROOT, zoneFs), ZONEROOT, es);
    TableHasRoot(m);
    UnmountUndoesAttach(m, ZONEROOT + RUN_DIR, "backingroot", m[ROOT]);
    MountedIfUnmounted(Build(t, zoneFs, es), ZONEROOT + BACKINGROOT);
  }

  /** `destroy` undoes `build`, for every listing, with automount points and stacked mounts. */
  lemma DestroyUndoesBuild(t: Table, zoneFs: Fs, es: seq<Entry>)
    requires Sorted(es) && forall e | e in es :: PlainPath(e.path)
    ensures forall e | e in es :: e.path != []
    ensures Destroy(Build(t, zoneFs, es), es) == Ok(t)
  {
    hide Lookup, Attach, Unmount, Valid, Sorted, MountAll, UnmountAll, Mountable, RUN_DIR, IsMount, Build, Unbind;
    ZoneIsMountable(t, zoneFs, es);
    var z := Attach(t, ZONEROOT, zoneFs);
    UnmountUndoesMount(z, ZONEROOT, es);
    UnbindUndoesBind(t, zoneFs, es);
    MountedIfUnmounted(z, ZONEROOT);
  }

  lemma BackingName()
    ensures ZONEROOT + RUN_DIR + ["backingroot"] == ZONEROOT + BACKINGROOT
  {
  }

  // ---------------------------------------------------------------------------------------------
  // What build leaves is a built zone
  // ---------------------------------------------------------------------------------------------

  /** A path stays a mount point when something is mounted that hides nothing. */
  lemma StaysMounted(t: Table, p: Path, q: Path, fs: Fs)
    requires p != [] && q != [] && IsMount(t, p)
    requires forall k | k in t :: !(Lookup(t, q) < k)
    ensures IsMount(Attach(t, q, fs), p)
  {
    hide Valid, Grounded, Resolve;
    var r, d := Lookup(t, p), Lookup(t, q);
    var k := d + [Mnt];
    var t' := Attach(t, q, fs);
    if d == r {
      NamesOfLookup(t, p);
      NamesOfLookup(t, q);
      assert p == q;
      var i := p[|p| - 1];
      assert p == p[..|p| - 1] + [i];
      AttachedLookup(t, p[..|p| - 1], i, fs);
    } else {
      assert !(d <= r);
      forall n | 0 <= n <= |r|
        ensures (r[..n] + [Mnt] in t) <==> (r[..n] + [Mnt] in t')
      {
        PrefixOfItself(d, r, n);
      }
      SameLookup(t, t', p);
    }
  }

  lemma {:induction false} EntriesAreMounted(t: Table, base: Path, es: seq<Entry>, i: nat)
    requires Mountable(t, base, es) && i < |es| && !Skipped(es[i])
    ensures forall e | e in es :: e.path != []
    ensures IsMount(MountAll(t, base, es), base + es[i].path)
    decreases |es|
  {
    hide Lookup, Attach, Valid, Grounded, Sorted, PlainPath, Mountable, IsMount, Skipped;
    MountablePaths(t, base, es);
    var n := |es| - 1;
    MountableInit(t, base, es);
    if i == n {
      UnmountLast(t, base, es);
      MountedIfUnmounted(MountAll(t, base, es), base + es[i].path);
    } else {
      EntriesAreMounted(t, base, es[..n], i);
      MountingNeverCovers(t, base, es, n);
      if !Skipped(es[n]) {
        StaysMounted(MountAll(t, base, es[..n]), base + es[i].path, base + es[n].path, Fs(es[n].device, es[n].kind));
      }
    }
  }

  /** What is found at a path stays there when something is mounted elsewhere that hides nothing. */
  lemma StaysFound(t: Table, p: Path, q: Path, fs: Fs)
    requires p != [] && q != [] && p != q && IsMount(t, p)
    requires forall k | k in t :: !(Lookup(t, q) < k)
    ensures Lookup(Attach(t, q, fs), p) == Lookup(t, p)
    ensures Lookup(t, p) in Attach(t, q, fs) && Attach(t, q, fs)[Lookup(t, p)] == t[Lookup(t, p)]
  {
    hide Valid, Grounded, Resolve;
    var r, d := Lookup(t, p), Lookup(t, q);
    var t' := Attach(t, q, fs);
    NamesOfLookup(t, p);
    NamesOfLookup(t, q);
    AttachedIsFound(t, q, fs);
    assert d != r && !(d <= r);
    forall n | 0 <= n <= |r|
      ensures (r[..n] + [Mnt] in t) <==> (r[..n] + [Mnt] in t')
    {
      PrefixOfItself(d, r, n);
    }
    SameLookup(t, t', p);
  }

  lemma AttachedIsFound(t: Table, p: Path, fs: Fs)
    requires p != []
    ensures Lookup(t, p) + [Mnt] !in t
    ensures IsMount(Attach(t, p, fs), p) && Attach(t, p, fs)[Lookup(Attach(t, p, fs), p)] == fs
  {
    hide Valid, Lookup;
    assert p == p[..|p| - 1] + [p[|p| - 1]];
    AttachedLookup(t, p[..|p| - 1], p[|p| - 1], fs);
  }

  /** Each entry but automount points is found in the zone, the last of several for one directory. */
  lemma {:induction false} EntriesAreFound(t: Table, base: Path, es: seq<Entry>, i: nat)
    requires Mountable(t, base, es) && i < |es| && !Skipped(es[i])
    requires forall j | i < j < |es| :: es[j].path == es[i].path ==> Skipped(es[j])
    ensures forall e | e in es :: e.path != []
    ensures var m := MountAll(t, base, es);
      IsMount(m, base + es[i].path) && m[Lookup(m, base + es[i].path)] == Fs(es[i].device, es[i].kind)
    decreases |es|
  {
    hide Lookup, Attach, Valid, Grounded, Sorted, PlainPath, Mountable, Skipped;
    MountablePaths(t, base, es);
    EntriesAreMounted(t, base, es, i);
    var n := |es| - 1;
    MountableInit(t, base, es);
    if i == n {
      var p, m := base + es[n].path, MountAll(t, base, es[..n]);
      AttachedIsFound(m, p, Fs(es[n].device, es[n].kind));
    } else {
      EntriesAreFound(t, base, es[..n], i);
      MountingNeverCovers(t, base, es, n);
      if !Skipped(es[n]) {
        assert es[n].path != es[i].path;
        assert base + es[n].path != base + es[i].path by {
          assert (base + es[n].path)[|base|..] == es[n].path && (base + es[i].path)[|base|..] == es[i].path;
        }
        StaysFound(MountAll(t, base, es[..n]), base + es[i].path, base + es[n].path, Fs(es[n].device, es[n].kind));
      }
    }
  }

  /** Where the mounts of a zone under construction are. */
  ghost predicate Grown(t: RawTable, m: RawTable) {
    && (forall k | k in t :: k in m && m[k] == t[k])
    && (forall k | k in m && k !in t :: Lookup(t, ["run"]) + [Dir("PivotZone")] <= k && ZONEROOT <= Names(k))
  }

  /** Before the real root is bound, everything in the zone is there for a wanted path. */
  ghost predicate Growing(t: RawTable, m: RawTable) {
    && Grown(t, m)
    && (forall k | k in m && ZONEROOT < Names(k) && k !in t :: Wanted(Names(k)[|ZONEROOT|..]))
  }

  lemma PathsBelow(t: RawTable)
    ensures Lookup(t, ["run"]) + [Dir("PivotZone")] <= Lookup(t, RUN_DIR) <= Lookup(t, ZONEROOT)
  {
    hide Lookup, ZoneDir;
    BuiltPaths(t);
    PrefixLeft(Lookup(t, RUN_DIR), [Dir("zoneroot")], Lookup(t, ZONEROOT));
  }

  lemma ZoneGrows(t: Table, zoneFs: Fs, es: seq<Entry>)
    requires forall e | e in es :: PlainPath(e.path) && e.path != [] && Wanted(e.path)
    requires Sorted(es)
    ensures Growing(t, MountAll(Attach(t, ZONEROOT, zoneFs), ZONEROOT, es))
  {
    hide Lookup, Attach, Unmount, Valid, Grounded, Sorted, PlainPath, MountAll, ZONEROOT, RUN_DIR, Wanted;
    OwnNonEmpty();
    ZoneIsMountable(t, zoneFs, es);
    var z := Attach(t, ZONEROOT, zoneFs);
    MountedEntries(z, ZONEROOT, es);
    PathsBelow(t);
    NamesOfLookup(t, ZONEROOT);
    var m, l := MountAll(z, ZONEROOT, es), Lookup(t, ZONEROOT) + [Mnt];
    var top := Lookup(t, ["run"]) + [Dir("PivotZone")];
    assert z[l] == zoneFs;
    AttachedIsNew(t, zoneFs);
    forall k | k in m && k !in t
      ensures top <= k && ZONEROOT <= Names(k)
      ensures ZONEROOT < Names(k) ==> Wanted(Names(k)[|ZONEROOT|..])
    {
      if k != l {
        assert Lookup(z, ZONEROOT) < k;
        var e :| e in es && !Skipped(e) && Names(k) == ZONEROOT + e.path;
        assert Names(k)[|ZONEROOT|..] == e.path;
      }
    }
  }

  lemma AttachedIsNew(t: Table, zoneFs: Fs)
    ensures Lookup(t, ZONEROOT) + [Mnt] !in t
  {
    ResolveExtends(t, [], ZONEROOT);
  }

  /** What is mounted anew is below the new directory; so nothing of the zone was there before. */
  lemma GrownNames(t: RawTable, m: RawTable, d: Loc, k: Loc)
    requires Growing(t, m) && Vacant(t, Lookup(t, ["run"]) + [Dir("PivotZone")])
    requires Lookup(t, ["run"]) + [Dir("PivotZone")] <= d <= k && k in m && ZONEROOT < Names(d)
    ensures Names(d) <= Names(k) && Wanted(Names(k)[|ZONEROOT|..])
  {
    hide Lookup, Wanted, ZONEROOT;
    NamesOfPrefix(d, k);
  }

  /** No wanted path lies in the directories that the zone uses for itself. */
  lemma OwnDirsUnwanted(p: Path)
    ensures BACKINGROOT <= p || PFSHOLDER <= p || [ZRUNHOLDER] <= p ==> !Wanted(p)
  {
    assert ZRUNHOLDER !in PFS by {
      assert |ZRUNHOLDER| > 4;
    }
  }

  lemma OwnDirVacant(t: RawTable, m: RawTable, d: Loc, own: Path)
    requires Growing(t, m) && Vacant(t, Lookup(t, ["run"]) + [Dir("PivotZone")])
    requires Lookup(t, ["run"]) + [Dir("PivotZone")] <= d && Names(d) == ZONEROOT + own
    requires own == BACKINGROOT || own == PFSHOLDER || own == [ZRUNHOLDER]
    ensures Vacant(m, d)
  {
    hide Lookup, Wanted, ZONEROOT, BACKINGROOT, PFSHOLDER, ZRUNHOLDER;
    OwnNonEmpty();
    forall k | k in m
      ensures !(d <= k)
    {
      if d <= k {
        GrownNames(t, m, d, k);
        OwnTail(own, Names(k));
        OwnDirsUnwanted(Names(k)[|ZONEROOT|..]);
      }
    }
  }

  lemma OwnNonEmpty()
    ensures BACKINGROOT != [] && PFSHOLDER != [] && ZONEROOT != []
  {
  }

  lemma OwnTail(own: Path, p: Path)
    requires ZONEROOT + own <= p
    ensures own <= p[|ZONEROOT|..]
  {
    hide ZONEROOT;
    assert p == ZONEROOT + own + p[|ZONEROOT + own|..];
    assert p[|ZONEROOT|..] == own + p[|ZONEROOT + own|..];
  }

  lemma RunStays(t: RawTable, m: RawTable)
    requires Grown(t, m)
    ensures Lookup(m, ["run"]) == Lookup(t, ["run"])
  {
    hide Lookup, ZONEROOT;
    var r := Lookup(t, ["run"]);
    forall n | 0 <= n <= |r|
      ensures (r[..n] + [Mnt] in t) <==> (r[..n] + [Mnt] in m)
    {
    }
    SameLookup(t, m, ["run"]);
  }

  /** The directory that the real root will be bound to. */
  lemma BindPlace(t: Table, m: Table)
    requires Growing(t, m) && Fresh(t)
    ensures var d := ZoneDir(m);
            && Lookup(m, ZONEROOT + BACKINGROOT) == d + [Dir("backingroot")]
            && Vacant(m, d + [Dir("backingroot")]) && Vacant(m, d + [Dir("pfsholder")])
            && Lookup(t, ["run"]) + [Dir("PivotZone")] <= d + [Dir("backingroot")]
            && Vacant(m, Lookup(m, ZONEROOT) + [Dir(ZRUNHOLDER)])
  {
    hide Lookup, Valid, Grounded, Growing, Wanted, RUN_DIR, ZONEROOT, BACKINGROOT, PFSHOLDER, ZRUNHOLDER;
    GrowingIsGrown(t, m);
    RunStays(t, m);
    PathsBelow(m);
    BuiltNesting(m);
    BackingName();
    var d, z, top := ZoneDir(m), Lookup(m, ZONEROOT), Lookup(t, ["run"]) + [Dir("PivotZone")];
    NamesOfLookup(m, ZONEROOT + RUN_DIR);
    NamesOfLookup(m, ZONEROOT);
    NamesSnoc(d, "backingroot");
    NamesSnoc(d, "pfsholder");
    NamesSnoc(z, ZRUNHOLDER);
    OwnNames();
    assert top <= z + [Dir(ZRUNHOLDER)] && top <= d + [Dir("backingroot")] && top <= d + [Dir("pfsholder")];
    OwnDirVacant(t, m, d + [Dir("backingroot")], BACKINGROOT);
    OwnDirVacant(t, m, d + [Dir("pfsholder")], PFSHOLDER);
    OwnDirVacant(t, m, z + [Dir(ZRUNHOLDER)], [ZRUNHOLDER]);
    LookupName(m, ZONEROOT + RUN_DIR, "backingroot");
    VacantTop(m, d + [Dir("backingroot")]);
  }

  lemma GrowingIsGrown(t: RawTable, m: RawTable)
    requires Growing(t, m)
    ensures Grown(t, m)
  {
  }

  lemma NamesSnoc(d: Loc, i: Name)
    ensures Names(d + [Dir(i)]) == Names(d) + [i]
  {
    assert (d + [Dir(i)])[..|d|] == d;
  }

  lemma OwnNames()
    ensures ZONEROOT + RUN_DIR + ["backingroot"] == ZONEROOT + BACKINGROOT
    ensures ZONEROOT + RUN_DIR + ["pfsholder"] == ZONEROOT + PFSHOLDER
  {
  }

  lemma VacantTop(t: RawTable, d: Loc)
    requires Vacant(t, d)
    ensures Top(t, d) == d
  {
  }

  lemma BoundTable(t: Table, m: Table)
    requires Growing(t, m) && Fresh(t)
    ensures var b := Attach(m, ZONEROOT + BACKINGROOT, m[ROOT]);
            && Grown(t, b) && ZoneDir(b) == ZoneDir(m) && Lookup(b, ZONEROOT) == Lookup(m, ZONEROOT)
            && b == m[BindLoc(b) := m[ROOT]] && BindLoc(b) !in m
            && Names(BindLoc(b)) == ZONEROOT + BACKINGROOT
  {
    hide Lookup, Valid, Grounded, Growing, Grown, Fresh, Attach, ZoneDir, RUN_DIR, ZONEROOT, BACKINGROOT;
    TableHasRoot(m);
    BoundAt(t, m);
    BoundLookups(t, m);
    BoundGrows(t, m);
  }

  /** The bind is one new mount, in its directory. */
  lemma BoundAt(t: Table, m: Table)
    requires Growing(t, m) && Fresh(t)
    ensures Attach(m, ZONEROOT + BACKINGROOT, m[ROOT]) == m[BindLoc(m) := m[ROOT]] && BindLoc(m) !in m
    ensures BindLoc(m) == ZoneDir(m) + [Dir("backingroot")] + [Mnt]
    ensures Names(BindLoc(m)) == ZONEROOT + BACKINGROOT
    ensures Lookup(t, ["run"]) + [Dir("PivotZone")] <= BindLoc(m)
  {
    hide Lookup, Valid, Grounded, Growing, Grown, ZoneDir, RUN_DIR, ZONEROOT, BACKINGROOT, PFSHOLDER, ZRUNHOLDER;
    BindPlace(t, m);
    TableHasRoot(m);
    var d := ZoneDir(m) + [Dir("backingroot")];
    assert BindLoc(m) == d + [Mnt];
    NamesOfLookup(m, ZONEROOT + BACKINGROOT);
    PrefixLeft(Lookup(t, ["run"]) + [Dir("PivotZone")], [Mnt], BindLoc(m));
  }

  /** The bind changes where neither the zone nor its directory is found. */
  lemma BoundLookups(t: Table, m: Table)
    requires Growing(t, m) && Fresh(t)
    ensures var b := m[BindLoc(m) := m[ROOT]]; ZoneDir(b) == ZoneDir(m) && Lookup(b, ZONEROOT) == Lookup(m, ZONEROOT)
  {
    hide Lookup, Valid, Grounded, Growing, Grown, Fresh, RUN_DIR, ZONEROOT, BACKINGROOT, PFSHOLDER, ZRUNHOLDER;
    TableHasRoot(m);
    BoundAt(t, m);
    BuiltNesting(m);
    var d := ZoneDir(m) + [Dir("backingroot")];
    AddedElsewhere(m, d, m[ROOT], ZONEROOT);
    AddedElsewhere(m, d, m[ROOT], ZONEROOT + RUN_DIR);
  }

  lemma BoundGrows(t: Table, m: Table)
    requires Growing(t, m) && Fresh(t)
    ensures Grown(t, m[BindLoc(m) := m[ROOT]])
  {
    hide Lookup, Valid, Fresh, Growing, ZoneDir, BindLoc, RUN_DIR, ZONEROOT, BACKINGROOT;
    GrowingIsGrown(t, m);
    BoundAt(t, m);
  }

  /** Adding a mount does not change where a path leads that does not pass its directory. */
  lemma AddedElsewhere(t: RawTable, d: Loc, fs: Fs, p: Path)
    requires !(d <= Lookup(t, p))
    ensures Lookup(t[d + [Mnt] := fs], p) == Lookup(t, p)
  {
    var r := Lookup(t, p);
    forall n | 0 <= n <= |r|
      ensures (r[..n] + [Mnt] in t) <==> (r[..n] + [Mnt] in t[d + [Mnt] := fs])
    {
      PrefixOfItself(d, r, n);
    }
    SameLookup(t, t[d + [Mnt] := fs], p);
  }

  lemma BackingIsNoMount(t: RawTable, b: RawTable)
    requires Grown(t, b) && Fresh(t)
    ensures !IsMount(b, BACKINGROOT)
  {
    hide Lookup;
    RunStays(t, b);
    PathsBelow(b);
    NamesOfLookup(b, BACKINGROOT);
    assert RUN_DIR + ["backingroot"] == BACKINGROOT;
    LookupName(b, RUN_DIR, "backingroot");
    PrefixLeft(Lookup(b, RUN_DIR), [Dir("backingroot")], Lookup(b, BACKINGROOT));
    assert |ZONEROOT| == |BACKINGROOT| && ZONEROOT[2] != BACKINGROOT[2];
  }

  lemma ParkNameIsOwn()
    ensures !([ZRUNHOLDER] <= BACKINGROOT)
  {
    assert |ZRUNHOLDER| > |BACKINGROOT[0]|;
  }

  lemma ParkNotBound(z: Loc, k: Loc)
    requires Names(z) == ZONEROOT && Names(k) == ZONEROOT + BACKINGROOT
    ensures !(z + [Dir(ZRUNHOLDER)] <= k)
  {
    hide ZONEROOT, BACKINGROOT, ZRUNHOLDER;
    ParkNameIsOwn();
    NamesSnoc(z, ZRUNHOLDER);
    if z + [Dir(ZRUNHOLDER)] <= k {
      NamesOfPrefix(z + [Dir(ZRUNHOLDER)], k);
      OwnTail([ZRUNHOLDER], ZONEROOT + BACKINGROOT);
    }
  }

  /** Only the bound root is mounted in the directories that the zone uses for itself. */
  lemma BoundVacancies(t: Table, m: Table)
    requires Growing(t, m) && Fresh(t) && Names(Lookup(m, ZONEROOT)) == ZONEROOT
    ensures var b := Attach(m, ZONEROOT + BACKINGROOT, m[ROOT]);
            && (forall k | k in b :: ZoneDir(b) + [Dir("backingroot")] <= k ==> k == BindLoc(b))
            && Vacant(b, ZoneDir(b) + [Dir("pfsholder")])
            && Vacant(b, Lookup(b, ZONEROOT) + [Dir(ZRUNHOLDER)])
  {
    hide Lookup, Valid, Grounded, Growing, Grown, Wanted, RUN_DIR, ZONEROOT, BACKINGROOT, PFSHOLDER, ZRUNHOLDER,
         ZoneDir, Attach;
    OwnNonEmpty();
    TableHasRoot(m);
    BindPlace(t, m);
    BoundTable(t, m);
    var b := Attach(m, ZONEROOT + BACKINGROOT, m[ROOT]);
    ParkNotBound(Lookup(m, ZONEROOT), BindLoc(b));
    HolderNotBound(ZoneDir(b));
  }

  /**
   Nothing that `build` mounts is on the list of `__get_pfs_mounts`: it all lies below `_RUN_DIR`.  So the
   list is the same before, during and after.
   */
  lemma GrownListsTheSame(t: RawTable, m: RawTable, options: Loc -> string, es: seq<Entry>)
    requires Grown(t, m)
    ensures PfsMounts(m, options, es) <==> PfsMounts(t, options, es)
  {
    hide Lookup, Sorted;
    forall e: Entry
      ensures Wanted(e.path) ==> MountsOf(m, options, e) == MountsOf(t, options, e)
    {
      if Wanted(e.path) {
        forall k | k in m && k !in t
          ensures Names(k) != e.path
        {
          ZoneIsUnwanted(Names(k));
        }
      }
    }
  }

  lemma ZoneIsUnwanted(p: Path)
    requires ZONEROOT <= p
    ensures !Wanted(p)
  {
  }

  lemma ZoneItselfUnwanted(t: Table, zoneFs: Fs, options: Loc -> string, es: seq<Entry>)
    ensures PfsMounts(Attach(t, ZONEROOT, zoneFs), options, es) <==> PfsMounts(t, options, es)
  {
    hide Lookup, Attach, ZONEROOT, RUN_DIR, Growing, PfsMounts;
    OwnNonEmpty();
    ZoneGrows(t, zoneFs, []);
    GrowingIsGrown(t, Attach(t, ZONEROOT, zoneFs));
    GrownListsTheSame(t, Attach(t, ZONEROOT, zoneFs), options, es);
  }

  /** `build` on a system where the zone's directory is new leaves a built zone. */
  lemma BuildIsBuilt(t: Table, zoneFs: Fs, options: Loc -> string, es: seq<Entry>)
    requires Fresh(t) && PlainTable(t) && PfsMounts(Attach(t, ZONEROOT, zoneFs), options, es)
    ensures forall e | e in es :: e.path != []
    ensures var b := Build(t, zoneFs, es);
            && Built(System(b, None, false))
            && b[Lookup(b, ZONEROOT)] == zoneFs && b[ROOT] == t[ROOT]
            && Grown(t, b)
  {
    hide Lookup, Valid, Grounded, Growing, Wanted, Sorted, RUN_DIR, ZONEROOT, BACKINGROOT, PFSHOLDER, ZRUNHOLDER,
         MountAll, PfsMounts, PlainTable, Fresh, ZoneDir, Attach;
    ZoneItselfUnwanted(t, zoneFs, options, es);
    ListingFacts(t, options, es);
    OwnNonEmpty();
    var z := Attach(t, ZONEROOT, zoneFs);
    var m := MountAll(z, ZONEROOT, es);
    ZoneIsMountable(t, zoneFs, es);
    ZoneGrows(t, zoneFs, es);
    MountedEntries(z, ZONEROOT, es);
    NamesOfLookup(m, ZONEROOT);
    BoundVacancies(t, m);
    TableHasRoot(m);
    TableHasRoot(t);
    BuildIsMounted(t, zoneFs, es, m);
  }

  lemma BuildIsMounted(t: Table, zoneFs: Fs, es: seq<Entry>, m: Table)
    requires Fresh(t) && Growing(t, m)
    requires Mountable(Attach(t, ZONEROOT, zoneFs), ZONEROOT, es)
    requires exists e :: e in es && e.path == ["run"] && !Skipped(e)
    requires forall e | e in es :: e.path != []
    requires m == MountAll(Attach(t, ZONEROOT, zoneFs), ZONEROOT, es) && IsMount(m, ZONEROOT)
    ensures var b := Build(t, zoneFs, es);
            && IsMount(b, ["run"]) && !IsMount(b, BACKINGROOT)
            && IsMount(b, ZONEROOT) && IsMount(b, ZONEROOT + ["run"])
            && BindLoc(b) in b && b[BindLoc(b)] == b[ROOT] && b[ROOT] == t[ROOT]
            && b[Lookup(b, ZONEROOT)] == m[Lookup(m, ZONEROOT)] && Grown(t, b)
  {
    hide Lookup, Valid, Grounded, Growing, Wanted, Sorted, RUN_DIR, ZONEROOT, BACKINGROOT, PFSHOLDER, ZRUNHOLDER,
         MountAll, Mountable, ZoneDir, Attach;
    OwnNonEmpty();
    TableHasRoot(m);
    TableHasRoot(t);
    var z, b := Attach(t, ZONEROOT, zoneFs), Build(t, zoneFs, es);
    GrowingIsGrown(t, m);
    BindPlace(t, m);
    BoundTable(t, m);
    BackingIsNoMount(t, b);
    RunEntryMounted(z, es);
    RunStays(t, b);
    StaysMounted(m, ZONEROOT + ["run"], ZONEROOT + BACKINGROOT, m[ROOT]);
    MountedEntries(z, ZONEROOT, es);
  }

  /** In the built zone every listed file system is found at its place, but automount points and hidden ones. */
  lemma BuildMountsAll(t: Table, zoneFs: Fs, options: Loc -> string, es: seq<Entry>, i: nat)
    requires Fresh(t) && PlainTable(t) && PfsMounts(Attach(t, ZONEROOT, zoneFs), options, es)
    requires i < |es| && es[i].kind != "autofs"
    requires forall j | i < j < |es| :: es[j].path == es[i].path ==> es[j].kind == "autofs"
    ensures forall e | e in es :: e.path != []
    ensures var b, p := Build(t, zoneFs, es), ZONEROOT + es[i].path;
      IsMount(b, p) && b[Lookup(b, p)] == Fs(es[i].device, es[i].kind)
  {
    hide Lookup, Valid, Grounded, Growing, Sorted, PFS, ZRUNHOLDER, MountAll, PfsMounts, PlainTable, Fresh, ZoneDir,
         Attach, Mountable, RUN_DIR, ZONEROOT, BACKINGROOT, PFSHOLDER;
    ZoneItselfUnwanted(t, zoneFs, options, es);
    ListingFacts(t, options, es);
    OwnNonEmpty();
    var z := Attach(t, ZONEROOT, zoneFs);
    var m := MountAll(z, ZONEROOT, es);
    ZoneIsMountable(t, zoneFs, es);
    ZoneGrows(t, zoneFs, es);
    EntriesAreFound(z, ZONEROOT, es, i);
    BindPlace(t, m);
    TableHasRoot(m);
    BackingUnwanted();
    assert es[i] in es;
    BindHidesNothing(t, m);
    StaysFound(m, ZONEROOT + es[i].path, ZONEROOT + BACKINGROOT, m[ROOT]);
  }

  /** The place `k` is that of a listed mount which is no automount point. */
  ghost predicate Listed(es: seq<Entry>, k: Loc) {
    exists e :: e in es && e.kind != "autofs" && Names(k) == ZONEROOT + e.path
  }

  lemma MountsAreListed(t: Table, zoneFs: Fs, es: seq<Entry>)
    requires Mountable(Attach(t, ZONEROOT, zoneFs), ZONEROOT, es)
    ensures forall e | e in es :: e.path != []
    ensures var z := Attach(t, ZONEROOT, zoneFs);
      var m := MountAll(z, ZONEROOT, es);
      Lookup(m, ZONEROOT) == Lookup(z, ZONEROOT) && forall k | k in m && k !in z :: Listed(es, k)
  {
    hide Lookup, Valid, Attach, MountAll, Mountable, ZONEROOT;
    OwnNonEmpty();
    MountablePaths(Attach(t, ZONEROOT, zoneFs), ZONEROOT, es);
    MountedEntries(Attach(t, ZONEROOT, zoneFs), ZONEROOT, es);
  }

  /** And nothing else is mounted: only the zone's root, the bind, and listed mounts. */
  lemma BuildMountsNothingElse(t: Table, zoneFs: Fs, options: Loc -> string, es: seq<Entry>)
    requires Fresh(t) && PlainTable(t) && PfsMounts(Attach(t, ZONEROOT, zoneFs), options, es)
    ensures forall e | e in es :: e.path != []
    ensures var b := Build(t, zoneFs, es);
      forall k | k in b && k !in t :: k == Lookup(b, ZONEROOT) || k == BindLoc(b) || Listed(es, k)
  {
    hide Lookup, Valid, Grounded, Growing, Grown, Sorted, PfsMounts, PlainTable, Fresh, ZoneDir, Attach, Mountable,
         BindLoc, Listed, MountAll, RUN_DIR, ZONEROOT, BACKINGROOT, PFSHOLDER;
    ZoneItselfUnwanted(t, zoneFs, options, es);
    ListingFacts(t, options, es);
    OwnNonEmpty();
    ZoneIsMountable(t, zoneFs, es);
    ZoneGrows(t, zoneFs, es);
    var m := MountAll(Attach(t, ZONEROOT, zoneFs), ZONEROOT, es);
    TableHasRoot(m);
    BoundTable(t, m);
    MountsAreListed(t, zoneFs, es);
  }

  lemma BackingUnwanted()
    ensures !Wanted(BACKINGROOT)
  {
    assert RUN_DIR < BACKINGROOT;
  }

  lemma BindHidesNothing(t: Table, m: Table)
    requires Growing(t, m) && Fresh(t)
    ensures forall k | k in m :: !(Lookup(m, ZONEROOT + BACKINGROOT) < k)
  {
    hide Lookup, Growing, ZoneDir, Fresh, RUN_DIR, ZONEROOT, BACKINGROOT;
    BindPlace(t, m);
  }

  lemma HolderNotBound(d: Loc)
    ensures !(d + [Dir("pfsholder")] <= d + [Dir("backingroot"), Mnt])
  {
    PrefixCancel(d, [Dir("pfsholder")], [Dir("backingroot"), Mnt]);
    assert [Dir("pfsholder")][0] != [Dir("backingroot"), Mnt][0];
  }

  lemma RunEntryMounted(z: Table, es: seq<Entry>)
    requires Mountable(z, ZONEROOT, es)
    requires exists e :: e in es && e.path == ["run"] && !Skipped(e)
    ensures forall e | e in es :: e.path != []
    ensures IsMount(MountAll(z, ZONEROOT, es), ZONEROOT + ["run"])
  {
    hide Mountable, MountAll, Lookup, ZONEROOT;
    var e :| e in es && e.path == ["run"] && !Skipped(e);
    var i :| 0 <= i < |es| && es[i] == e;
    EntriesAreMounted(z, ZONEROOT, es, i);
  }

  // ---------------------------------------------------------------------------------------------
  // The whole life of a zone
  // ---------------------------------------------------------------------------------------------

  /** Every real mount but the root is one of the mounted `_PFS` or below one. */
  ghost predicate RealCovered(t: RawTable) {
    forall k | k in t :: k == ROOT || exists i :: i in RealPfs(t) && Lookup(t, [i]) <= k
  }

  lemma NameStays(t: RawTable, b: RawTable, i: Name)
    requires Valid(t) && Grown(t, b)
    ensures Lookup(b, [i]) == Lookup(t, [i])
  {
    hide Lookup, Valid, ZONEROOT;
    LookupShape(t, [i]);
    LookupShape(t, ["run"]);
    var r, top := Lookup(t, [i]), Lookup(t, ["run"]) + [Dir("PivotZone")];
    SameFirstName(ROOT + [Dir("run")], top);
    SameFirstName(ROOT + [Dir(i)], r);
    forall n | 0 <= n <= |r|
      ensures (r[..n] + [Mnt] in t) <==> (r[..n] + [Mnt] in b)
    {
      NameNotInZone(r, top, i, n);
    }
    SameLookup(t, b, [i]);
  }

  lemma NameNotInZone(r: Loc, top: Loc, i: Name, n: nat)
    requires n <= |r| && |r| > 1 && r[1] == Dir(i) && |top| > 2 && top[1] == Dir("run")
    ensures top <= r[..n] + [Mnt] ==> i == "run" && |top| <= |r| + 1
    ensures top <= r[..n] + [Mnt] ==> top[..|top| - 1] <= r
  {
    var q := r[..n] + [Mnt];
    if top <= q {
      assert q[1] == top[1] && n >= 2 && q[1] == r[1];
      assert top[..|top| - 1] == q[..|top| - 1] == r[..|top| - 1];
    }
  }

  lemma BuildIsCovered(t: Table, b: Table)
    requires Grown(t, b) && RealCovered(t) && IsMount(t, ["run"])
    ensures Covered(b)
  {
    hide Lookup, Valid, ZONEROOT, PFS;
    RunIsPfs();
    forall k | k in b
      ensures k == ROOT || exists i :: i in RealPfs(b) && Lookup(b, [i]) <= k
    {
      if k in t && k != ROOT {
        var i :| i in RealPfs(t) && Lookup(t, [i]) <= k;
        NameStays(t, b, i);
        assert i in RealPfs(b);
      } else if k != ROOT {
        NameStays(t, b, "run");
        PrefixLeft(Lookup(t, ["run"]), [Dir("PivotZone")], k);
        assert "run" in RealPfs(b);
      }
    }
  }

  lemma RunIsPfs()
    ensures "run" in PFS
  {
  }

  /** `destroy` reads the mounts again, and undoes `build` with what it reads then. */
  lemma DestroyReadsAgain(t: Table, zoneFs: Fs, options: Loc -> string, es: seq<Entry>, again: seq<Entry>)
    requires Fresh(t) && PlainTable(t) && PfsMounts(Attach(t, ZONEROOT, zoneFs), options, es)
    ensures forall e | e in es :: e.path != []
    ensures var b := Build(t, zoneFs, es);
      Unbind(b).Ok? && (PfsMounts(Unbind(b).value, options, again) ==> Destroy(b, again) == Ok(t))
  {
    hide Lookup, Valid, Fresh, Sorted, Wanted, PlainTable, PlainPath, PfsMounts, Build, UnmountAll, Unbind, Attach,
         RUN_DIR, MountAll, Growing, Grown, ZONEROOT, BACKINGROOT, Unmount, IsMount;
    OwnNonEmpty();
    ZoneItselfUnwanted(t, zoneFs, options, es);
    ListingFacts(t, options, es);
    DestroyUndoesBuild(t, zoneFs, es);
    var m := MountAll(Attach(t, ZONEROOT, zoneFs), ZONEROOT, es);
    ZoneGrows(t, zoneFs, es);
    GrowingIsGrown(t, m);
    UnbindUndoesBind(t, zoneFs, es);
    GrownListsTheSame(t, m, options, again);
    if PfsMounts(m, options, again) {
      SameListing(t, options, es, again);
      SameMountsUnmountAlike(m, ZONEROOT, es, again);
    }
  }

  lemma SameListing(t: RawTable, options: Loc -> string, es: seq<Entry>, again: seq<Entry>)
    requires PfsMounts(t, options, es) && PfsMounts(t, options, again)
    ensures Sorted(es) && Sorted(again) && multiset(es) == multiset(again)
  {
  }

  /**
   Built, entered, left and destroyed: every step succeeds, and the mount table is in the end what it
   was in the beginning.  The mounts are read from the table when `build` reads them, and again when
   `destroy` does.
   */
  lemma WholeLife(t: Table, zoneFs: Fs, options: Loc -> string, es: seq<Entry>, again: seq<Entry>, order: seq<Name>)
    requires Fresh(t) && RealCovered(t) && PlainTable(t)
    requires PfsMounts(Attach(t, ZONEROOT, zoneFs), options, es)
    requires NoRepeats(order) && (set i | i in order) == RealPfs(t)
    ensures forall e | e in es :: e.path != []
    ensures var s := System(Build(t, zoneFs, es), None, false);
            var entered := EnterMounts(s);
            && entered.Done?
            && Exit(entered.s, zoneFs.device, t[ROOT], order, true) == Done(s)
            && Unbind(s.table).Ok?
            && (PfsMounts(Unbind(s.table).value, options, again) ==> Destroy(s.table, again) == Ok(t))
  {
    hide Lookup, Valid, Fresh, Sorted, Wanted, EnterMounts, Exit, Build, Destroy, Covered, RealCovered, Built,
         NoRepeats, PFS, ZONEROOT, RUN_DIR, BACKINGROOT, Grown, RealPfs, PlainTable, PfsMounts, Unbind, Attach;
    BuildIsBuilt(t, zoneFs, options, es);
    var b := Build(t, zoneFs, es);
    FreshHasRun(t);
    BuildIsCovered(t, b);
    SamePfs(t, b);
    ExitUndoesEnter(System(b, None, false), zoneFs.device, order);
    DestroyReadsAgain(t, zoneFs, options, es, again);
  }

  lemma FreshHasRun(t: RawTable)
    requires Fresh(t)
    ensures IsMount(t, ["run"])
  {
  }

  lemma SamePfs(t: Table, b: Table)
    requires Grown(t, b)
    ensures RealPfs(b) == RealPfs(t)
  {
    hide Lookup, PFS, ZONEROOT;
    forall i
      ensures i in RealPfs(b) <==> i in RealPfs(t)
    {
      NameStays(t, b, i);
      if i in RealPfs(b) && i !in RealPfs(t) {
        NewIsNotNamed(t, b, i);
      }
    }
  }

  lemma NewIsNotNamed(t: Table, b: Table, i: Name)
    requires Grown(t, b) && Lookup(b, [i]) in b
    ensures Lookup(b, [i]) in t
  {
    hide Lookup;
    NamesOfLookup(b, [i]);
    assert |ZONEROOT| > 1;
  }
}
