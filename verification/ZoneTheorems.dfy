/** The main results about `enter` and `exit`. */
module ZoneTheorems {
  import opened Core
  import opened MountTable
  import opened MountPaths
  import opened ZoneLayout
  import opened ZoneProtocol
  import opened ZonePaths
  import opened ZoneEnter

  // ---------------------------------------------------------------------------------------------
  // A built zone
  // ---------------------------------------------------------------------------------------------

  /** The zone's own `/run/PivotZone`, seen from the real root. */
  function ZoneDir(t: RawTable): Loc {
    Lookup(t, ZONEROOT + RUN_DIR)
  }

  /** The bind mount of the real root that `build` and `exit` leave in the zone. */
  function BindLoc(t: RawTable): Loc {
    ZoneDir(t) + [Dir("backingroot"), Mnt]
  }

  /**
   The zone is built and not entered: its root and its `/run` are mounted, the real root is bound to
   its `_BACKINGROOT`, and nothing else is mounted in the directories that `enter` uses there.
   */
  ghost predicate Built(s: System) {
    var t := s.table;
    && s.holder == None && !s.swapDir
    && IsMount(t, ["run"]) && !IsMount(t, BACKINGROOT)
    && IsMount(t, ZONEROOT) && IsMount(t, ZONEROOT + ["run"])
    && BindLoc(t) in t && t[BindLoc(t)] == t[ROOT]
    && (forall k | k in t :: ZoneDir(t) + [Dir("backingroot")] <= k ==> k == BindLoc(t))
    && Vacant(t, ZoneDir(t) + [Dir("pfsholder")])
    && Vacant(t, Lookup(t, ZONEROOT) + [Dir(ZRUNHOLDER)])
  }

  /** The file systems of `_PFS` that are mounted in the real root. */
  function RealPfs(t: RawTable): set<Name> {
    set i | i in PFS && IsMount(t, [i])
  }

  /**
   Every mount is the root, is in the zone, or is one of the mounted `_PFS` or below one.  This is what
   the code takes for granted where it has the TODO about non-root drives.
   */
  ghost predicate Covered(t: RawTable) {
    forall k | k in t ::
      k == ROOT || Lookup(t, ZONEROOT) <= k || exists i :: i in RealPfs(t) && Lookup(t, [i]) <= k
  }

  function FrameOf(t: RawTable): Frame {
    Frame(t - {BindLoc(t)}, Lookup(t, ZONEROOT),
          ZoneDir(t) + [Dir("backingroot")], ZoneDir(t) + [Dir("pfsholder")],
          map i | i in RealPfs(t) :: Lookup(t, [i]))
  }

  // ---------------------------------------------------------------------------------------------
  // The frame of a built zone
  // ---------------------------------------------------------------------------------------------

  /** Removing a mount does not change where a path leads that does not pass its directory. */
  lemma Unaffected(t: RawTable, d: Loc, p: Path)
    requires !(d <= Lookup(t, p))
    ensures Lookup(t - {d + [Mnt]}, p) == Lookup(t, p)
  {
    var r := Lookup(t, p);
    forall n | 0 <= n <= |r|
      ensures (r[..n] + [Mnt] in t) <==> (r[..n] + [Mnt] in t - {d + [Mnt]})
    {
      PrefixOfItself(d, r, n);
    }
    SameLookup(t, t - {d + [Mnt]}, p);
  }

  lemma PrefixOfItself(d: Loc, r: Loc, n: nat)
    requires n <= |r|
    ensures r[..n] + [Mnt] == d + [Mnt] ==> d <= r
  {
    if r[..n] + [Mnt] == d + [Mnt] {
      assert r[..n] == (r[..n] + [Mnt])[..n] == d;
    }
  }

  lemma BuiltPaths(t: RawTable)
    ensures ZONEROOT + RUN_DIR == ZONEROOT + ["run"] + ["PivotZone"]
    ensures ZONEROOT + RUN_DIR + ["backingroot"] == ZONEROOT + BACKINGROOT
    ensures RUN_DIR == ["run"] + ["PivotZone"] && ZONEROOT == RUN_DIR + ["zoneroot"]
    ensures Lookup(t, ["run"]) + [Dir("PivotZone")] <= Lookup(t, RUN_DIR)
    ensures Lookup(t, RUN_DIR) + [Dir("zoneroot")] <= Lookup(t, ZONEROOT)
    ensures Lookup(t, ZONEROOT) <= Lookup(t, ZONEROOT + ["run"])
    ensures Lookup(t, ZONEROOT + ["run"]) + [Dir("PivotZone")] <= ZoneDir(t)
  {
    hide Lookup, Resolve, ZRUNHOLDER;
    LookupName(t, ["run"], "PivotZone");
    LookupName(t, RUN_DIR, "zoneroot");
    LookupName(t, ZONEROOT, "run");
    LookupName(t, ZONEROOT + ["run"], "PivotZone");
    PrefixLeft(Lookup(t, ZONEROOT), [Dir("run")], Lookup(t, ZONEROOT + ["run"]));
  }

  /** The zone lies strictly inside the real `/run`, and the four places are nested. */
  lemma BuiltNesting(t: RawTable)
    requires Valid(t)
    ensures ROOT + [Dir("run")] <= Lookup(t, ["run"]) < Lookup(t, RUN_DIR) < Lookup(t, ZONEROOT)
    ensures Lookup(t, ZONEROOT) <= Lookup(t, ZONEROOT + ["run"]) < ZoneDir(t)
    ensures Lookup(t, ZONEROOT) < ZoneDir(t) + [Dir("backingroot")]
    ensures Lookup(t, ZONEROOT) < ZoneDir(t) + [Dir("pfsholder")]
  {
    hide Lookup, Valid, RUN_DIR, ZONEROOT, BACKINGROOT, ZoneDir;
    BuiltPaths(t);
    LookupShape(t, ["run"]);
  }

  lemma RealIsOutside(t: RawTable, i: Name)
    requires Valid(t)
    ensures ROOT + [Dir(i)] <= Lookup(t, [i]) && !(Lookup(t, ZONEROOT) <= Lookup(t, [i]))
    ensures Lookup(t, [i]) + [Mnt] !in t
  {
    hide Lookup, Valid, RUN_DIR, ZONEROOT, BACKINGROOT, ZoneDir;
    BuiltNesting(t);
    LookupShape(t, [i]);
    LookupTop(t, [i]);
    SameFirstName(ROOT + [Dir("run")], Lookup(t, ["run"]));
    SameFirstName(Lookup(t, ["run"]), Lookup(t, ZONEROOT));
    SameFirstName(ROOT + [Dir(i)], Lookup(t, [i]));
    SameFirstName(Lookup(t, ZONEROOT), Lookup(t, [i]));
  }

  lemma LookupTop(t: RawTable, p: Path)
    ensures Lookup(t, p) + [Mnt] !in t
    ensures Grounded(t, Lookup(t, p))
  {
    ResolveExtends(t, [], p);
  }

  lemma BoundLeaf(s: System)
    requires Built(s)
    ensures var f := FrameOf(s.table);
            && Valid(f.u) && Grounded(f.u, f.backing) && Vacant(f.u, f.backing) && Vacant(f.u, f.hold)
            && BindLoc(s.table) == f.backing + [Mnt]
            && ROOT in f.u && f.zone in f.u && f.zone + [Mnt] !in f.u
  {
    hide Lookup, RUN_DIR, ZONEROOT, BACKINGROOT, ZoneDir, PFS;
    var t, f := s.table, FrameOf(s.table);
    BuiltNesting(t);
    LookupTop(t, ZONEROOT + RUN_DIR);
    LookupTop(t, ZONEROOT);
    var d := ZoneDir(t);
    assert BindLoc(t) == f.backing + [Mnt];
    assert ZoneDir(t) == Lookup(t, ZONEROOT + RUN_DIR) by { RunDirIs(t); }
    forall k | k in t
      ensures !(BindLoc(t) < k)
    {
      PrefixLeft(f.backing, [Mnt], k);
    }
    LeafRemovalKeepsValid(t, BindLoc(t));
    GroundedSnoc(t, d, Dir("backingroot"));
    LeafKeepsGround(t, f.backing);
  }

  lemma RunDirIs(t: RawTable)
    ensures ZoneDir(t) == Lookup(t, ZONEROOT + RUN_DIR)
  {
  }

  lemma LeafKeepsGround(t: RawTable, l: Loc)
    requires Grounded(t, l)
    ensures Grounded(t - {l + [Mnt]}, l)
  {
  }

  lemma GroundedParent(t: RawTable, l: Loc)
    requires Grounded(t, l) && l != []
    ensures Grounded(t, l[..|l| - 1])
  {
    forall n | 0 <= n < |l| - 1 && l[n] == Mnt
      ensures l[..|l| - 1][..n + 1] in t
    {
      assert l[..|l| - 1][..n + 1] == l[..n + 1];
    }
  }

  lemma FrameIsGood(s: System)
    requires Built(s)
    ensures FrameOf(s.table).Good()
  {
    hide Lookup, Valid, Vacant, Grounded, RUN_DIR, ZONEROOT, BACKINGROOT, ZoneDir, PFS;
    var t, f := s.table, FrameOf(s.table);
    BuiltNesting(t);
    BoundLeaf(s);
    GroundedParent(f.u, f.backing);
    forall i | i in f.src
      ensures f.src[i] in f.u && f.src[i] + [Mnt] !in f.u && ROOT + [Dir(i)] <= f.src[i] && !(f.zone <= f.src[i])
    {
      RealIsOutside(t, i);
    }
    LastApart(ZoneDir(t), Dir("backingroot"), Dir("pfsholder"));
    LastApart(ZoneDir(t), Dir("pfsholder"), Dir("backingroot"));
  }

  lemma LastApart(d: Loc, a: Step, b: Step)
    ensures d + [a] <= d + [b] ==> a == b
  {
    PrefixCancel(d, [a], [b]);
    assert [a] <= [b] ==> [a][0] == [b][0];
  }

  lemma FrameIsRouted(s: System)
    requires Built(s)
    ensures Routed(FrameOf(s.table))
  {
    hide Lookup, Resolve, Valid, Vacant, Grounded, RUN_DIR, ZONEROOT, BACKINGROOT, PFS, Frame.Good, ZRUNHOLDER;
    var t, f := s.table, FrameOf(s.table);
    BuiltPaths(t);
    BuiltNesting(t);
    BoundLeaf(s);
    FrameIsGood(s);
    FramePaths(s);
    FrameSources(s);
    MountedShape(t, Lookup(t, RUN_DIR) + [Dir("zoneroot")], f.zone);
  }

  /** A mount that extends a directory extends it strictly. */
  lemma MountedShape(t: RawTable, d: Loc, l: Loc)
    requires Valid(t) && l in t && d <= l && d != [] && d[|d| - 1] != Mnt
    ensures d < l
  {
    assert MountLoc(l);
  }

  lemma FrameSources(s: System)
    requires Built(s)
    ensures var t, f := s.table, FrameOf(s.table);
            && (forall i | i in PFS :: i in f.src <==> IsMount(f.u, [i]))
            && (forall i | i in f.src :: i in PFS && f.src[i] == Lookup(f.u, [i]))
            && "run" in f.src && ZoneRun(f) in f.u && Vacant(f.u, f.zone + [Dir(ZRUNHOLDER)])
  {
    hide Lookup, Resolve, Valid, Grounded, RUN_DIR, ZONEROOT, BACKINGROOT, Frame.Good, ZRUNHOLDER;
    var t, f := s.table, FrameOf(s.table);
    FramePaths(s);
    BuiltNesting(t);
    forall i | i in PFS
      ensures i in f.src <==> IsMount(f.u, [i])
    {
      RealIsOutside(t, i);
    }
  }

  lemma FramePaths(s: System)
    requires Built(s)
    ensures var t, f := s.table, FrameOf(s.table);
            && ZoneRunDir(f) == ZoneDir(t) && ZoneRun(f) == Lookup(t, ZONEROOT + ["run"])
            && Lookup(f.u, RUN_DIR) == Lookup(t, RUN_DIR) && Lookup(f.u, ZONEROOT) == f.zone
            && (forall i :: Lookup(f.u, [i]) == Lookup(t, [i]))
  {
    hide Resolve, Valid, Vacant, Grounded, RUN_DIR, ZONEROOT, BACKINGROOT, PFS, Frame.Good, ZRUNHOLDER;
    var t, f := s.table, FrameOf(s.table);
    BuiltNesting(t);
    var d := f.backing;
    assert BindLoc(t) == d + [Mnt];
    Unaffected(t, d, ZONEROOT + RUN_DIR);
    Unaffected(t, d, ZONEROOT + ["run"]);
    Unaffected(t, d, ZONEROOT);
    Unaffected(t, d, RUN_DIR);
    ResolveCompose(f.u, [], ZONEROOT, RUN_DIR);
    ResolveCompose(f.u, [], ZONEROOT, ["run"]);
    forall i
      ensures Lookup(f.u, [i]) == Lookup(t, [i])
    {
      RealIsOutside(t, i);
      Unaffected(t, d, [i]);
    }
  }

  // ---------------------------------------------------------------------------------------------
  // enter, step by step
  // ---------------------------------------------------------------------------------------------

  lemma BindIsDropped(s: System)
    requires Built(s)
    ensures var t, f := s.table, FrameOf(s.table);
            && Lookup(t, ZONEROOT + BACKINGROOT) == BindLoc(t)
            && Unmount(t, ZONEROOT + BACKINGROOT) == Ok(f.u)
            && Lookup(f.u, ZONEROOT + BACKINGROOT) == f.backing
  {
    hide Lookup, Resolve, Valid, Vacant, Grounded, RUN_DIR, ZONEROOT, BACKINGROOT, PFS, Frame.Good, ZRUNHOLDER;
    var t, f := s.table, FrameOf(s.table);
    BuiltPaths(t);
    BuiltNesting(t);
    BoundLeaf(s);
    var b := BindLoc(t);
    RunDirIs(t);
    LookupName(t, ZONEROOT + RUN_DIR, "backingroot");
    assert b[..|f.backing| + 1] == b;
    assert b + [Mnt] !in t by {
      PrefixLeft(f.backing, [Mnt], b + [Mnt]);
      assert b + [Mnt] != b;
    }
    TopIs(t, f.backing, b);
    LookupWithout(t, ZONEROOT + RUN_DIR, "backingroot");
    assert b[..|b| - 1] == f.backing;
    forall k | k in t
      ensures !(b < k)
    {
      PrefixLeft(f.backing, [Mnt], k);
    }
  }

  lemma PivotReached(s: System)
    requires Built(s)
    ensures var r := Then(Then(MakeHolder(s), DropBacking), PivotIn);
            var f := FrameOf(s.table);
            Routed(f) && r.Done? && r.s.table == Layout(f, {}) && r.s.holder == Some({}) && !r.s.swapDir
  {
    hide Lookup, Resolve, Valid, Vacant, Grounded, RUN_DIR, ZONEROOT, BACKINGROOT, PFS, Frame.Good, ZRUNHOLDER,
         Layout, Routed, Swung;
    var t, f := s.table, FrameOf(s.table);
    FrameIsRouted(s);
    FrameIsGood(s);
    FramePaths(s);
    BindIsDropped(s);
    BuiltNesting(t);
    Shape(f);
    PivotGivesLayout(f);
  }

  /** After the loop, all real file systems but `/run` are stashed, and all have a directory. */
  lemma {:induction false} StashLoop(s: System, f: Frame, names: set<Name>, made: set<Name>, rest: seq<Name>)
    requires Routed(f) && s.table == Layout(f, names) && s.holder == Some(made) && !s.swapDir
    requires forall i | i in rest :: i in PFS && i !in names && i !in made
    requires forall m, n | 0 <= m < n < |rest| :: rest[m] != rest[n]
    ensures var r := StashFrom(s, rest);
            && r.Done? && !r.s.swapDir
            && r.s.table == Layout(f, names + (set i | i in rest && i in f.src && i !in SHARED_PFS))
            && r.s.holder == Some(made + (set i | i in rest && i in f.src))
    decreases |rest|
  {
    hide Routed, Layout, PFS, SHARED_PFS, BACKINGROOT, PFSHOLDER, Valid, Lookup, Move;
    if rest == [] {
      assert names + (set i | i in rest && i in f.src && i !in SHARED_PFS) == names;
      assert made + (set i | i in rest && i in f.src) == made;
    } else {
      var i, more := rest[0], rest[1..];
      StashStep(s, f, names, made, i);
      var names' := if i in f.src && i !in SHARED_PFS then names + {i} else names;
      var made' := if i in f.src then made + {i} else made;
      var s' := StashOne(s, i).s;
      StashLoop(s', f, names', made', more);
      assert names + (set j | j in rest && j in f.src && j !in SHARED_PFS)
          == names' + (set j | j in more && j in f.src && j !in SHARED_PFS);
      assert made + (set j | j in rest && j in f.src) == made' + (set j | j in more && j in f.src);
    }
  }

  lemma StashStep(s: System, f: Frame, names: set<Name>, made: set<Name>, i: Name)
    requires Routed(f) && s.table == Layout(f, names) && s.holder == Some(made) && !s.swapDir
    requires i in PFS && i !in names && i !in made
    ensures var r := StashOne(s, i);
            && r.Done? && !r.s.swapDir
            && r.s.table == Layout(f, if i in f.src && i !in SHARED_PFS then names + {i} else names)
            && r.s.holder == Some(if i in f.src then made + {i} else made)
  {
    hide Routed, Layout, PFS, SHARED_PFS, BACKINGROOT, PFSHOLDER, Valid, Lookup, Move;
    BackingNameLookup(f, names, i);
    if i in f.src {
      StashMove(s.table, f, names, i);
    }
  }

  lemma PfsNames()
    ensures forall m, n | 0 <= m < n < |PFS| :: PFS[m] != PFS[n]
    ensures "run" in PFS && SHARED_PFS == {"run"}
  {
  }

  /** Once the swap is done, the real root's directory holds only what no `_PFS` mount covered. */
  lemma AllStashed(s: System)
    requires Built(s)
    ensures var f := FrameOf(s.table);
            var r := Then(Then(Then(Then(MakeHolder(s), DropBacking), PivotIn), StashAll), SwapRun);
            && Routed(f) && r.Done? && r.s.table == Layout(f, RealPfs(s.table))
            && r.s.holder == Some(RealPfs(s.table)) && !r.s.swapDir
  {
    hide Lookup, Valid, BACKINGROOT, ZONEROOT, RUN_DIR, PFS, SHARED_PFS, Layout, Routed, SwapRun, StashFrom,
         PivotIn, DropBacking, MakeHolder, Built;
    var f := FrameOf(s.table);
    PivotReached(s);
    var s2 := Then(Then(MakeHolder(s), DropBacking), PivotIn).s;
    PfsNames();
    StashLoop(s2, f, {}, {}, PFS);
    var s3 := StashAll(s2).s;
    RunIsSource(f);
    var most := set i | i in PFS && i in f.src && i !in SHARED_PFS;
    assert {} + most == most;
    assert s3.table == Layout(f, most);
    assert {} + (set i | i in PFS && i in f.src) == RealPfs(s.table);
    SwapStashesRun(s3, f, most);
    assert most + {"run"} == RealPfs(s.table);
  }

  // ---------------------------------------------------------------------------------------------
  // When enter succeeds, and what it leaves
  // ---------------------------------------------------------------------------------------------

  /** Where `enter` puts the mount at `k`. */
  function EnteredPlace(t: RawTable, k: Loc): Loc
    requires FrameOf(t).Good()
  {
    FrameOf(t).Place(RealPfs(t), k)
  }

  /** The table of an entered zone: the stashed layout without the real root. */
  function EnteredTable(t: RawTable): RawTable
    requires FrameOf(t).Good()
  {
    Layout(FrameOf(t), RealPfs(t)) - {FrameOf(t).Put() + ROOT}
  }

  lemma LeftBehind(s: System, k: Loc)
    requires Built(s) && k in FrameOf(s.table).u && k != ROOT
    requires Routed(FrameOf(s.table))
    ensures var f := FrameOf(s.table);
            f.Put() + ROOT < f.Place(RealPfs(s.table), k) <==>
            !(f.zone <= k) && !(exists i :: i in RealPfs(s.table) && Lookup(s.table, [i]) <= k)
  {
    hide Lookup, Layout, Vacant, Grounded, Frame.Good, Routed, RUN_DIR, ZONEROOT, BACKINGROOT, PFS, Built, ZoneDir,
         BindLoc;
    var t, f := s.table, FrameOf(s.table);
    Shape(f);
    var all := RealPfs(t);
    assert MountLoc(k);
    PlacedBelowPut(f, all, k, ROOT);
    if exists i :: i in all && Lookup(t, [i]) <= k {
      var i :| i in all && Lookup(t, [i]) <= k;
      RealIsOutside(t, i);
      SameFirstName(ROOT + [Dir(i)], Lookup(t, [i]));
      SameFirstName(Lookup(t, [i]), k);
      assert f.Stashed(all, k);
    } else if !(f.zone <= k) {
      assert !f.Stashed(all, k);
    }
  }

  lemma NothingLeftBehind(s: System)
    requires Built(s) && Routed(FrameOf(s.table))
    ensures var f := FrameOf(s.table);
            Covered(s.table) <==> !(exists q :: q in Layout(f, RealPfs(s.table)) && f.Put() + ROOT < q)
  {
    hide Lookup, Layout, Vacant, Grounded, Frame.Good, Routed, RUN_DIR, ZONEROOT, BACKINGROOT, PFS, ZoneDir, Built;
    var t, f := s.table, FrameOf(s.table);
    Shape(f);
    var all := RealPfs(t);
    if exists q :: q in Layout(f, all) && f.Put() + ROOT < q {
      var q :| q in Layout(f, all) && f.Put() + ROOT < q;
      var k := LayoutFrom(f, all, q);
      RootPlace(f, all);
      LeftBehind(s, k);
      assert k in t;
    }
    if !Covered(t) {
      var k :| k in t && k != ROOT && !(Lookup(t, ZONEROOT) <= k)
        && !(exists i :: i in all && Lookup(t, [i]) <= k);
      BindInZone(s);
      LeftBehind(s, k);
      LayoutAt(f, all, k);
    }
  }

  lemma RootPlace(f: Frame, names: set<Name>)
    requires Routed(f)
    ensures f.Place(names, ROOT) == f.Put() + ROOT
  {
    hide Lookup, Layout, Vacant, Grounded, Frame.Good, RUN_DIR, ZONEROOT, BACKINGROOT, PFS;
    Shape(f);
  }

  lemma BindInZone(s: System)
    requires Built(s)
    ensures Lookup(s.table, ZONEROOT) <= BindLoc(s.table) && BindLoc(s.table) != ROOT
    ensures FrameOf(s.table).u == s.table - {BindLoc(s.table)}
  {
    hide Lookup, RUN_DIR, ZONEROOT, BACKINGROOT, PFS, ZoneDir;
    var t := s.table;
    BuiltNesting(t);
    PrefixLeft(ZoneDir(t) + [Dir("backingroot")], [Mnt], BindLoc(t));
    BoundLeaf(s);
  }

  /**
   `enter` succeeds on a built zone exactly when every real mount is covered by a mounted `_PFS`;
   otherwise its last `umount` is refused.  Either way the mounts are the laid-out ones.
   */
  lemma EnterSucceedsExactly(s: System)
    requires Built(s)
    ensures FrameOf(s.table).Good()
    ensures Covered(s.table) <==> EnterMounts(s).Done?
    ensures Covered(s.table) ==> EnterMounts(s).s.table == EnteredTable(s.table)
    ensures !Covered(s.table) ==> EnterMounts(s).error == Busy
                                  && EnterMounts(s).s.table == Layout(FrameOf(s.table), RealPfs(s.table))
    ensures EnterMounts(s).s.holder == Some(RealPfs(s.table)) && !EnterMounts(s).s.swapDir
  {
    hide Lookup, Layout, Vacant, Grounded, Valid, Frame.Good, Routed, RUN_DIR, ZONEROOT, BACKINGROOT, PFS, ZoneDir,
      Built, Covered, SwapRun, StashAll, PivotIn, DropBacking, MakeHolder, StashFrom;
    var t, f := s.table, FrameOf(s.table);
    AllStashed(s);
    Shape(f);
    BackingLookup(f, RealPfs(t));
    NothingLeftBehind(s);
    assert |f.Put() + ROOT| > |ROOT|;
  }

  /** The mounts of the root and of its bind in the zone are gone; every other mount is where it belongs. */
  lemma EnteredMounts(s: System)
    requires Built(s) && Covered(s.table)
    ensures FrameOf(s.table).Good()
    ensures forall k | k in s.table && k != ROOT && k != BindLoc(s.table) ::
              EnteredPlace(s.table, k) in EnterMounts(s).s.table
              && EnterMounts(s).s.table[EnteredPlace(s.table, k)] == s.table[k]
    ensures forall q | q in EnterMounts(s).s.table ::
              exists k :: k in s.table && k != ROOT && k != BindLoc(s.table) && EnteredPlace(s.table, k) == q
                          && EnterMounts(s).s.table[q] == s.table[k]
  {
    hide Lookup, Layout, Vacant, Grounded, Valid, Frame.Good, RUN_DIR, ZONEROOT, BACKINGROOT, PFS, ZoneDir, Built,
         Covered, EnterMounts, Routed;
    var t, f := s.table, FrameOf(s.table);
    EnterSucceedsExactly(s);
    FrameIsRouted(s);
    BindInZone(s);
    var all := RealPfs(t);
    Shape(f);
    RootPlace(f, all);
    OriginOfPlace(f, all, ROOT);
    forall k | k in t && k != ROOT && k != BindLoc(t)
      ensures EnteredPlace(t, k) in EnterMounts(s).s.table
      ensures EnterMounts(s).s.table[EnteredPlace(t, k)] == t[k]
    {
      LayoutAt(f, all, k);
      OriginOfPlace(f, all, k);
    }
    forall q | q in EnterMounts(s).s.table
      ensures exists k :: k in t && k != ROOT && k != BindLoc(t) && EnteredPlace(t, k) == q
                          && EnterMounts(s).s.table[q] == t[k]
    {
      var k := LayoutFrom(f, all, q);
    }
  }

  /** While the zone is entered, the root device is mounted nowhere if and only if it was nowhere else before. */
  lemma RootDeviceIsFree(s: System)
    requires Built(s) && Covered(s.table)
    ensures
      (forall q | q in EnterMounts(s).s.table :: EnterMounts(s).s.table[q].device != s.table[ROOT].device) <==>
      forall k | k in s.table && s.table[k].device == s.table[ROOT].device :: k == ROOT || k == BindLoc(s.table)
  {
    hide Lookup, Layout, Valid, Frame.Good, Built, Covered, EnterMounts, EnteredPlace, BindLoc;
    EnteredMounts(s);
  }

  /** While the zone is entered, its own `/run` is at `/run`. */
  lemma EnteredRun(s: System)
    requires Built(s) && Covered(s.table)
    ensures var t, t' := s.table, EnterMounts(s).s.table;
            IsMount(t', ["run"]) && t'[Lookup(t', ["run"])] == t[Lookup(t, ZONEROOT + ["run"])]
  {
    hide Layout, Vacant, Grounded, Valid, Frame.Good, RUN_DIR, ZONEROOT, BACKINGROOT, PFSHOLDER, PFS, ZoneDir,
         Built, Covered, EnterMounts, Routed, Lookup, Resolve, RealPfs;
    var t, f := s.table, FrameOf(s.table);
    EnterSucceedsExactly(s);
    FrameIsRouted(s);
    FrameIsGood(s);
    Shape(f);
    FramePaths(s);
    RunDirs(f, RealPfs(t));
    assert f.Put() + ROOT == f.Put() + [Mnt];
    NotAbove(f);
    Unaffected(Layout(f, RealPfs(t)), f.Put(), ["run"]);
    ZoneRunKept(f, RealPfs(t));
    RunIsSource(f);
  }

  /** While the zone is entered, each real file system is at its slot. */
  lemma EnteredSlot(s: System, i: Name)
    requires Built(s) && Covered(s.table) && i in RealPfs(s.table)
    ensures FrameOf(s.table).Good()
    ensures IsMount(EnterMounts(s).s.table, PFSHOLDER + [i])
    ensures Lookup(EnterMounts(s).s.table, PFSHOLDER + [i]) == FrameOf(s.table).Slot(i)
    ensures Lookup(s.table, [i]) in s.table
    ensures EnterMounts(s).s.table[Lookup(EnterMounts(s).s.table, PFSHOLDER + [i])] == s.table[Lookup(s.table, [i])]
  {
    hide Layout, Vacant, Grounded, Valid, Frame.Good, RUN_DIR, ZONEROOT, BACKINGROOT, PFSHOLDER, PFS, ZoneDir,
         Built, Covered, EnterMounts, Routed, Lookup, Resolve;
    var t, f := s.table, FrameOf(s.table);
    var all := RealPfs(t);
    EnterSucceedsExactly(s);
    FrameIsRouted(s);
    FrameIsGood(s);
    Shape(f);
    HolderLookup(f, all, i);
    SlotApart(f, i, []);
    assert f.Put() + ROOT == f.Put() + [Mnt];
    assert f.Put() + [] == f.Put();
    Unaffected(Layout(f, all), f.Put(), PFSHOLDER + [i]);
    SlotSpot(f, all, i);
    SlotApart(f, i, ROOT);
    SourceStays(s, i);
  }

  lemma SourceStays(s: System, i: Name)
    requires Built(s) && i in RealPfs(s.table)
    ensures var f := FrameOf(s.table);
      i in f.src && f.src[i] == Lookup(s.table, [i]) && f.src[i] in f.u && f.u[f.src[i]] == s.table[f.src[i]]
  {
    hide Valid, RUN_DIR, ZONEROOT, BACKINGROOT, PFSHOLDER, PFS, ZoneDir, Built, Lookup, Resolve, BindLoc;
    FrameIsGood(s);
    FrameTable(s.table);
  }

  lemma NotAbove(f: Frame)
    requires Routed(f)
    ensures !(f.Put() <= ROOT + ZoneRun(f)[|f.zone|..]) && ROOT + ZoneRun(f)[|f.zone|..] != f.Put() + ROOT
  {
    hide Layout, Frame.Good, Valid, Grounded, Vacant, PFS, BACKINGROOT, PFSHOLDER, ZONEROOT, RUN_DIR, ZRUNHOLDER;
    Shape(f);
    RunDirs(f, {});
    PrefixTail(f.zone, ZoneRun(f));
    PrefixLeft(ZoneRun(f), [Dir("PivotZone")], ZoneRunDir(f));
    assert |ZoneRun(f)| < |ZoneRunDir(f)|;
  }

  lemma ZoneRunKept(f: Frame, names: set<Name>)
    requires Routed(f)
    ensures var z := ROOT + ZoneRun(f)[|f.zone|..];
            z in Layout(f, names) && Layout(f, names)[z] == f.u[ZoneRun(f)]
  {
    hide Layout, Frame.Good, Valid, Grounded, Vacant, PFS, BACKINGROOT, PFSHOLDER, ZONEROOT, RUN_DIR, ZRUNHOLDER;
    Shape(f);
    RunDirs(f, names);
    LayoutAt(f, names, ZoneRun(f));
  }

  /** What was below the zone's root is below the root; what was below a real file system is below its slot. */
  lemma EnteredSubtrees(s: System, x: Loc)
    requires Built(s)
    ensures FrameOf(s.table).Good()
    ensures EnteredPlace(s.table, Lookup(s.table, ZONEROOT) + x) == ROOT + x
    ensures forall i | i in RealPfs(s.table) && !(Lookup(s.table, ZONEROOT) <= Lookup(s.table, [i]) + x) ::
              EnteredPlace(s.table, Lookup(s.table, [i]) + x) == FrameOf(s.table).Slot(i) + x
  {
    hide Layout, Vacant, Grounded, Valid, Frame.Good, RUN_DIR, ZONEROOT, BACKINGROOT, PFS, ZoneDir, Built, Routed,
         Lookup;
    var t, f := s.table, FrameOf(s.table);
    FrameIsRouted(s);
    Shape(f);
    PrefixLeft(f.zone, x, f.zone + x);
    forall i | i in RealPfs(t) && !(Lookup(t, ZONEROOT) <= Lookup(t, [i]) + x)
      ensures EnteredPlace(t, Lookup(t, [i]) + x) == f.Slot(i) + x
    {
      RealIsOutside(t, i);
      var a := Lookup(t, [i]);
      PrefixLeft(a, x, a + x);
      SameFirstName(ROOT + [Dir(i)], a);
      SameFirstName(a, a + x);
      assert f.Stashed(RealPfs(t), a + x);
    }
  }

  // ---------------------------------------------------------------------------------------------
  // exit
  // ---------------------------------------------------------------------------------------------

  ghost predicate NoRepeats(names: seq<Name>) {
    forall m, n | 0 <= m < n < |names| :: names[m] != names[n]
  }

  /** Whatever the order, the loop of `exit` gives the named file systems back. */
  lemma {:induction false} UnstashLoop(s: System, f: Frame, names: set<Name>, order: seq<Name>)
    requires Routed(f) && s.table == Layout(f, names) && s.holder == Some(names)
    requires names <= f.src.Keys && NoRepeats(order) && forall i | i in order :: i in names
    ensures var r := UnstashFrom(s, order);
            && r.Done? && r.s.swapDir == s.swapDir
            && r.s.table == Layout(f, names - (set i | i in order))
            && r.s.holder == Some(names - (set i | i in order))
    decreases |order|
  {
    hide Routed, Layout, Valid, Lookup, Move, PFSHOLDER, BACKINGROOT, Frame.Good;
    if order == [] {
      assert names - (set i | i in order) == names;
    } else {
      var i, more := order[0], order[1..];
      var fewer := names - {i};
      assert fewer + {i} == names;
      UnstashMove(s.table, f, fewer, i);
      UnstashLoop(UnstashOne(s, i).s, f, fewer, more);
      assert names - (set j | j in order) == fewer - (set j | j in more);
    }
  }

  lemma PivotsBack(f: Frame, k: Loc)
    requires Routed(f) && k in f.u
    ensures var put := f.Put() + f.zone[..|f.zone| - 1];
            f.Put() + ROOT < put && Swing(f.Put() + ROOT, put, f.Place({}, k)) == k
  {
    hide Layout, Lookup, Vacant, Grounded, Routed, Frame.Good, PFS, BACKINGROOT, PFSHOLDER, ZONEROOT, RUN_DIR,
         ZRUNHOLDER;
    Shape(f);
    assert MountLoc(k);
    var zd := f.zone[..|f.zone| - 1];
    assert ROOT <= zd;
    PrefixCancel(f.Put(), ROOT, zd);
    assert |zd| > 1;
    if f.zone <= k {
      ZonePlace(f, k);
      ZoneSwingsBack(f.Put(), zd, k[|f.zone|..]);
    } else {
      PrefixCancel(f.Put(), ROOT, k);
      PutTail(f.Put(), k);
    }
  }

  lemma ZoneSwingsBack(put: Loc, zd: Loc, x: Loc)
    requires ROOT <= zd && put + ROOT <= put + zd && !(put <= ROOT + x)
    ensures Swing(put + ROOT, put + zd, ROOT + x) == zd + ROOT + x
  {
    PrefixLeft(put, ROOT, ROOT + x);
    PutTail(put, zd);
    Regroup(zd, ROOT, x);
  }

  lemma PutTail(put: Loc, k: Loc)
    requires ROOT <= k
    ensures |put + ROOT| <= |put + k|
    ensures ROOT + (put + k)[|put + ROOT|..] == k
  {
    assert (put + k)[|put + ROOT|..] == k[1..];
  }

  lemma Regroup(a: Loc, b: Loc, c: Loc)
    ensures a + (b + c) == (a + b) + c
  {
  }

  /** The second `pivot_root` undoes the first. */
  lemma PivotOutUndoes(f: Frame, t: Table)
    requires Routed(f) && t == Layout(f, {})
    ensures PivotRoot(t, BACKINGROOT, BACKINGROOT + ZONEROOT) == Ok(f.u)
  {
    hide Layout, Swung, Lookup, Vacant, Grounded, Routed, Frame.Good, PFS, BACKINGROOT, PFSHOLDER, ZONEROOT,
         RUN_DIR, ZRUNHOLDER;
    Shape(f);
    BackingLookup(f, {});
    ZoneRootLookup(f);
    var n, put := f.Put() + ROOT, Lookup(t, BACKINGROOT + ZONEROOT);
    PutEnd(f, put);
    PivotsBack(f, ROOT);
    LookupTop(t, BACKINGROOT + ZONEROOT);
    LookupTop(t, BACKINGROOT);
    UnmountedIsVacant(t, put);
    assert MountLoc(n);
    var r := Swung(t, n, put);
    forall q | q in f.u
      ensures q in r && r[q] == f.u[q]
    {
      PivotsBack(f, q);
      LayoutAt(f, {}, q);
      SwungAt(t, n, put, f.Place({}, q));
    }
    forall q | q in r
      ensures q in f.u
    {
      var p := SwungFrom(t, n, put, q);
      var k := LayoutFrom(f, {}, p);
      PivotsBack(f, k);
    }
    SameTable(f.u, r);
  }

  lemma PutEnd(f: Frame, put: Loc)
    requires f.Good() && f.zone != [] && put + [Mnt] == f.Put() + f.zone
    ensures put == f.Put() + f.zone[..|f.zone| - 1]
  {
    assert put == (put + [Mnt])[..|put|];
    assert (f.Put() + f.zone)[..|put|] == f.Put() + f.zone[..|f.zone| - 1];
  }

  /** The kernel's `mount -t type device` puts back what `enter` unmounted last. */
  lemma RootReturns(f: Frame, names: set<Name>, t: Table, whole: Table)
    requires Routed(f) && whole == Layout(f, names) && t == whole - {f.Put() + ROOT}
    requires forall k | k in whole :: !(f.Put() + ROOT < k)
    ensures Attach(t, BACKINGROOT, f.u[ROOT]) == whole
  {
    hide Layout, Routed, Lookup, Vacant, Grounded, Frame.Good, PFS, PFSHOLDER, ZONEROOT, ZRUNHOLDER;
    Shape(f);
    BackingLookup(f, names);
    var p := RUN_DIR;
    assert p + ["backingroot"] == BACKINGROOT;
    assert f.Put() + ROOT != ROOT;
    assert Unmount(whole, p + ["backingroot"]) == Ok(t);
    AttachUndoesUnmount(whole, p, "backingroot");
  }

  lemma TableHasRoot(t: Table)
    ensures ROOT in t && BACKINGROOT != [] && ZONEROOT + BACKINGROOT != []
  {
  }

  /** The mount steps of `exit` lead back to the table before the pivot, for every listing order. */
  lemma ExitMountsGiveBack(s: System, order: seq<Name>)
    requires Built(s) && Covered(s.table)
    requires NoRepeats(order) && (set i | i in order) == RealPfs(s.table)
    ensures var r := ExitMounts(EnterMounts(s).s, s.table[ROOT], order);
            r.Done? && r.s.table == s.table - {BindLoc(s.table)} && r.s.holder == Some({}) && !r.s.swapDir
  {
    hide Layout, Routed, Lookup, Valid, Vacant, Grounded, Frame.Good, PFS, RUN_DIR, BACKINGROOT, PFSHOLDER,
         ZONEROOT, ZRUNHOLDER, Built, Covered, UnstashFrom, EnterMounts, BindLoc, ZoneDir, NoRepeats;
    var t, f, all := s.table, FrameOf(s.table), RealPfs(s.table);
    TableHasRoot(t);
    AllStashed(s);
    var whole := Then(Then(Then(Then(MakeHolder(s), DropBacking), PivotIn), StashAll), SwapRun).s.table;
    EnterSucceedsExactly(s);
    NothingLeftBehind(s);
    Shape(f);
    BindInZone(s);
    var e := EnterMounts(s).s;
    RootReturns(f, all, e.table, whole);
    var m := e.(table := Attach(e.table, BACKINGROOT, t[ROOT]));
    UnstashLoop(m, f, all, order);
    var u := UnstashFrom(m, order).s;
    assert all - (set i | i in order) == {};
    PivotOutUndoes(f, u.table);
  }

  /** The last bind of `exit` puts back what `enter` unmounted first. */
  lemma BindReturns(s: System, t: Table)
    requires Built(s) && t == s.table - {BindLoc(s.table)}
    ensures ROOT in t && t[ROOT] == s.table[ROOT] && Attach(t, ZONEROOT + BACKINGROOT, t[ROOT]) == s.table
  {
    hide Lookup, Valid, Vacant, Grounded, PFS, RUN_DIR, ZRUNHOLDER, ZoneDir, FrameOf;
    BindIsDropped(s);
    BindInZone(s);
    BoundLeaf(s);
    FrameTable(s.table);
    var p := ZONEROOT + RUN_DIR;
    BuiltPaths(s.table);
    AttachUndoesUnmount(s.table, p, "backingroot");
  }

  lemma FrameTable(t: RawTable)
    ensures FrameOf(t).u == t - {BindLoc(t)}
  {
  }

  /**
   Round trip: after `enter`, `exit` gives back exactly the system that `enter` found, whatever order
   the directory is listed in, provided that the service statuses were recorded.
   */
  lemma ExitUndoesEnter(s: System, device: string, order: seq<Name>)
    requires Built(s) && Covered(s.table)
    requires s.table[Lookup(s.table, ZONEROOT)].device == device
    requires NoRepeats(order) && (set i | i in order) == RealPfs(s.table)
    ensures EnterMounts(s).Done?
    ensures Exit(EnterMounts(s).s, device, s.table[ROOT], order, true) == Done(s)
  {
    hide Layout, Routed, Lookup, Valid, Vacant, Grounded, Frame.Good, PFS, RUN_DIR, BACKINGROOT, PFSHOLDER,
         ZONEROOT, ZRUNHOLDER, Covered, ExitMounts, EnterMounts, BindLoc, ZoneDir, NoRepeats, Attach;
    EnterSucceedsExactly(s);
    EnteredRoot(s);
    ExitMountsGiveBack(s, order);
    TableHasRoot(s.table);
    BindReturns(s, ExitMounts(EnterMounts(s).s, s.table[ROOT], order).s.table);
  }

  lemma EnteredRoot(s: System)
    requires Built(s) && Covered(s.table)
    ensures EnterMounts(s).s.table[ROOT] == s.table[Lookup(s.table, ZONEROOT)]
  {
    hide Layout, Lookup, Valid, Vacant, Grounded, Routed, Frame.Good, PFS, RUN_DIR, BACKINGROOT, PFSHOLDER,
         ZONEROOT, ZRUNHOLDER, Covered, EnterMounts, BindLoc, ZoneDir;
    EnteredMounts(s);
    BuiltNesting(s.table);
    BindInZone(s);
    BoundLeaf(s);
    EnteredSubtrees(s, []);
    var z := Lookup(s.table, ZONEROOT);
    assert z + [] == z && ROOT + [] == ROOT;
  }

  /** What a visit leaves behind when `exit` raises for want of the statuses. */
  predicate LeftInside(s: System, left: System) {
    left.table == s.table - {BindLoc(s.table)} && left.holder == Some({}) && !left.swapDir
  }

  lemma ExitStops(s: System, device: string, order: seq<Name>)
    requires Built(s) && Covered(s.table)
    requires s.table[Lookup(s.table, ZONEROOT)].device == device
    requires NoRepeats(order) && (set i | i in order) == RealPfs(s.table)
    ensures EnterMounts(s).Done?
    ensures var r := Exit(EnterMounts(s).s, device, s.table[ROOT], order, false);
            r.Raised? && r.error == AttributeMissing && LeftInside(s, r.s)
  {
    hide Layout, Routed, Lookup, Valid, Vacant, Grounded, Frame.Good, PFS, RUN_DIR, BACKINGROOT, PFSHOLDER,
         ZONEROOT, ZRUNHOLDER, Covered, ExitMounts, EnterMounts, BindLoc, ZoneDir, NoRepeats, Attach;
    EnterSucceedsExactly(s);
    EnteredRoot(s);
    ExitMountsGiveBack(s, order);
  }

  /**
   Without recorded statuses `exit` fails after its mounts are done: the bind in the zone stays away, the
   holder directory stays, and so the next `enter` refuses to start.
   */
  lemma ExitWithoutStatuses(s: System, device: string, order: seq<Name>)
    requires Built(s) && Covered(s.table)
    requires s.table[Lookup(s.table, ZONEROOT)].device == device
    requires NoRepeats(order) && (set i | i in order) == RealPfs(s.table)
    ensures EnterMounts(s).Done?
    ensures var r := Exit(EnterMounts(s).s, device, s.table[ROOT], order, false);
            && r.Raised? && r.error == AttributeMissing && LeftInside(s, r.s) && r.s != s
            && EnterMounts(r.s) == Raised(r.s, AlreadyEntered)
  {
    hide Lookup, Covered, Exit, BindLoc, NoRepeats, RealPfs, DropBacking, PivotIn, StashAll, SwapRun, DropRoot,
         Layout, Routed, Valid, Vacant, Grounded, Frame.Good, PFS, RUN_DIR, BACKINGROOT, PFSHOLDER, ZONEROOT;
    ExitStops(s, device, order);
  }

  /** Together: leaving restores the system exactly when the statuses are known. */
  lemma ExitRestoresExactly(s: System, device: string, order: seq<Name>, statusesKnown: bool)
    requires Built(s) && Covered(s.table)
    requires s.table[Lookup(s.table, ZONEROOT)].device == device
    requires NoRepeats(order) && (set i | i in order) == RealPfs(s.table)
    ensures Exit(EnterMounts(s).s, device, s.table[ROOT], order, statusesKnown) == Done(s) <==> statusesKnown
  {
    hide Built, Covered, Exit, EnterMounts, NoRepeats, Lookup, RealPfs;
    if statusesKnown {
      ExitUndoesEnter(s, device, order);
    } else {
      ExitWithoutStatuses(s, device, order);
    }
  }

  /** A second `exit` finds itself outside the zone, and leaves all as it is. */
  lemma ExitTwice(s: System, device: string, order: seq<Name>, again: seq<Name>)
    requires Built(s) && Covered(s.table) && ROOT in s.table
    requires s.table[Lookup(s.table, ZONEROOT)].device == device != s.table[ROOT].device
    requires NoRepeats(order) && (set i | i in order) == RealPfs(s.table)
    ensures var once := Exit(EnterMounts(s).s, device, s.table[ROOT], order, true).s;
      Exit(once, device, s.table[ROOT], again, true) == Raised(s, NotInZone)
  {
    hide Built, Covered, EnterMounts, NoRepeats, Lookup, RealPfs, ExitMounts, ExitCleanup;
    ExitUndoesEnter(s, device, order);
  }
}
