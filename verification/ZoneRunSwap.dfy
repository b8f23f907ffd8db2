/** The four moves by which `enter` swaps `/run`, resolved path by path. */
module ZoneRunSwap {
  import opened MountTable
  import opened MountPaths
  import opened ZoneProtocol
  import opened ZonePaths
  import opened ZoneSwap

  /** The table `l` before the swap, the zone's `/run` at `z`, the parking place `b`. */
  ghost predicate Ready(l: RawTable, z: Loc, b: Loc, w: Loc, h: Loc) {
    && Valid(l)
    && b == ROOT + [Dir(ZRUNHOLDER), Mnt]
    && ROOT + [Dir("run")] <= z
    && Stack(l, z, |z|)
    && z in l && z + [Mnt] !in l
    && Swappable(l, z, b, w, h)
    && z + w in l && z + w + [Mnt] !in l
    && Lookup(l, BACKINGROOT + ["run"]) == z + w
    && Lookup(l, PFSHOLDER + ["run"]) + [Mnt] == z + h
    && 1 < |h| < |w|
  }

  /** The lowest `m` steps to `z` are mounts stacked on a directory of the root. */
  ghost predicate Stack(t: RawTable, z: Loc, m: nat) {
    && 2 <= m <= |z|
    && forall n | 2 < n <= m :: z[..n] in t && z[n - 1] == Mnt
  }

  /** The path `/i` leads to the top of the stack of mounts on it. */
  lemma StackLookup(t: RawTable, i: Name, z: Loc, m: nat)
    requires Valid(t) && ROOT + [Dir(i)] <= z && Stack(t, z, m) && z[..m] + [Mnt] !in t
    ensures Lookup(t, [i]) == z[..m]
  {
    hide Grounded;
    RootTop(t);
    ResolveFromTop(t, [], [i]);
    ResolveName(t, ROOT, i);
    var l, r := ROOT + [Dir(i)], z[..m];
    assert l <= r;
    forall n | |l| < n <= |r|
      ensures r[..n] in t && r[n - 1] == Mnt
    {
      assert r[..n] == z[..n] && z[..n] in t && z[n - 1] == Mnt;
    }
    TopIs(t, l, r);
  }

  lemma NameLookup(t: RawTable, i: Name, l: Loc)
    requires Valid(t) && l == ROOT + [Dir(i)] && l + [Mnt] !in t
    ensures Lookup(t, [i]) == l
  {
    assert l[..2] == l;
    StackLookup(t, i, l, 2);
  }

  lemma ParkedLookup(t: RawTable, b: Loc)
    requires Valid(t) && b == ROOT + [Dir(ZRUNHOLDER), Mnt] && b in t && b + [Mnt] !in t
    ensures Lookup(t, [ZRUNHOLDER]) == b
  {
    hide Valid, ZRUNHOLDER;
    assert b[..3] == b;
    StackLookup(t, ZRUNHOLDER, b, 3);
  }

  lemma StackStays(t: RawTable, a: Loc, d: Loc, z: Loc, m: nat)
    requires Vacant(t, d) && Stack(t, z, m) && !(a <= z[..m])
    ensures Stack(Relocate(t, a, d), z, m)
  {
    hide Relocate;
    forall n | 2 < n <= m
      ensures z[..n] in Relocate(t, a, d) && z[n - 1] == Mnt
    {
      assert z[..n] in t;
      PrefixOfPrefix(a, z, n, m);
      RelocateAt(t, a, d, z[..n]);
    }
  }

  lemma PrefixOfPrefix(a: Loc, z: Loc, n: nat, m: nat)
    requires n <= m <= |z|
    ensures a <= z[..n] ==> a <= z[..m]
  {
    if a <= z[..n] {
      assert a == z[..n][..|a|] == z[..m][..|a|];
    }
  }

  /** Exactly what was below `a` is below `d` after the move. */
  lemma BelowTarget(t: RawTable, a: Loc, d: Loc, s: Loc)
    requires Vacant(t, d)
    ensures d + s in Relocate(t, a, d) <==> a + s in t
  {
    hide Relocate;
    if a + s in t {
      PrefixLeft(a, s, a + s);
      RelocateAt(t, a, d, a + s);
    }
    if d + s in Relocate(t, a, d) {
      var k := RelocateFrom(t, a, d, d + s);
      PrefixLeft(d, s, d + s);
      if a <= k {
        PrefixLeft(d, k[|a|..], d + k[|a|..]);
        PrefixTail(a, k);
      }
    }
  }

  /** What is neither below the source nor below the target stays. */
  lemma Elsewhere(t: RawTable, a: Loc, d: Loc, q: Loc)
    requires Vacant(t, d) && !(d <= q)
    ensures q in Relocate(t, a, d) <==> q in t && !(a <= q)
  {
    hide Relocate;
    if q in t && !(a <= q) {
      RelocateAt(t, a, d, q);
    }
    if q in Relocate(t, a, d) {
      var k := RelocateFrom(t, a, d, q);
      PrefixLeft(d, k[if a <= k then |a| else 0..], q);
    }
  }

  /** A path through the zone's `/run` leads to the same place below the parking place. */
  lemma ParkedPath(l: RawTable, t: RawTable, z: Loc, b: Loc, p: Path, r: Loc)
    requires Valid(l) && Valid(t) && b == ROOT + [Dir(ZRUNHOLDER), Mnt] && b in t && b + [Mnt] !in t
    requires Lookup(l, ["run"]) == z && Lookup(l, ["run"] + p) == z + r
    requires Agree(l, z, t, b, r)
    ensures Lookup(t, [ZRUNHOLDER] + p) == b + r
  {
    hide Valid, Agree, ZRUNHOLDER;
    ParkedLookup(t, b);
    ResolveCompose(l, [], ["run"], p);
    ResolveCompose(t, [], [ZRUNHOLDER], p);
    var e: Loc := [];
    assert z + e == z && b + e == b;
    Transport(l, z, t, b, e, p, r);
  }

  // ---------------------------------------------------------------------------------------------
  // The four moves
  // ---------------------------------------------------------------------------------------------

  lemma ReadyShape(l: RawTable, z: Loc, b: Loc, w: Loc, h: Loc)
    requires Ready(l, z, b, w, h)
    ensures Valid(l) && Swappable(l, z, b, w, h) && Vacant(l, b)
    ensures b == ROOT + [Dir(ZRUNHOLDER), Mnt] && ROOT + [Dir("run")] <= z
    ensures |z| > 2 && z[..|z|] == z && z[..|z| - 1] + [Mnt] == z
    ensures !(z <= b) && !(b <= z)
    ensures Lookup(l, ["run"]) == z && z in l && z + [Mnt] !in l
    ensures z + w in l && z + w + [Mnt] !in l
    ensures Stack(l, z, |z| - 1) && Stack(l, z, |z|)
    ensures Lookup(l, BACKINGROOT + ["run"]) == z + w
    ensures Lookup(l, PFSHOLDER + ["run"]) + [Mnt] == z + h
    ensures 1 < |h| < |w|
  {
    SnocLast(z);
    assert z[..|z|] == z;
    assert MountLoc(z);
    StackLookup(l, "run", z, |z|);
  }

  lemma ParkMove(l: Table, z: Loc, b: Loc, w: Loc, h: Loc)
    requires Ready(l, z, b, w, h)
    ensures Move(l, ["run"], [ZRUNHOLDER]) == Ok(Relocate(l, z, b))
  {
    ReadyShape(l, z, b, w, h);
    var sw := ROOT + [Dir(ZRUNHOLDER)];
    assert sw + [Mnt] == b;
    NameLookup(l, ZRUNHOLDER, sw);
  }

  lemma ParkedShape(l: RawTable, z: Loc, b: Loc, w: Loc, h: Loc)
    requires Ready(l, z, b, w, h)
    ensures var t := Relocate(l, z, b);
            && Vacant(t, z) && z !in t && b in t && b + [Mnt] !in t
            && b + w in t && b + (w + [Mnt]) !in t
            && Stack(t, z, |z| - 1)
  {
    hide Relocate, Ready, Valid, Stack;
    ReadyShape(l, z, b, w, h);
    ParkLeavesRunVacant(l, z, b);
    StackStays(l, z, b, z, |z| - 1);
    var e: Loc := [];
    assert z + e == z && b + e == b;
    BelowTarget(l, z, b, e);
    BelowTarget(l, z, b, [Mnt]);
    BelowTarget(l, z, b, w);
    BelowTarget(l, z, b, w + [Mnt]);
    assert z + w + [Mnt] == z + (w + [Mnt]);
  }

  lemma RealRunMove(l: RawTable, t: Table, z: Loc, b: Loc, w: Loc, h: Loc)
    requires Ready(l, z, b, w, h)
    requires Vacant(l, b) && t == Relocate(l, z, b)
    ensures Vacant(t, z)
    ensures Move(t, ViaSwap(BACKINGROOT) + ["run"], ["run"]) == Ok(Relocate(t, b + w, z))
  {
    hide Relocate, Ready, Vacant, Swappable, Grounded;
    ReadyShape(l, z, b, w, h);
    ParkedShape(l, z, b, w, h);
    forall n | 0 <= n <= |w|
      ensures (z + w[..n] + [Mnt] in l) <==> (b + w[..n] + [Mnt] in t)
    {
      BelowTarget(l, z, b, w[..n] + [Mnt]);
      assert z + w[..n] + [Mnt] == z + (w[..n] + [Mnt]) && b + w[..n] + [Mnt] == b + (w[..n] + [Mnt]);
    }
    var p := ["PivotZone", "backingroot", "run"];
    assert ["run"] + p == BACKINGROOT + ["run"] && [ZRUNHOLDER] + p == ViaSwap(BACKINGROOT) + ["run"];
    ParkedPath(l, t, z, b, p, w);
    StackLookup(t, "run", z, |z| - 1);
    PrefixLeft(b, w, z[..|z| - 1]);
    PrefixOfPrefix(b, z, |z| - 1, |z|);
  }

  /** The tables between the moves. */
  ghost predicate Chain(l: RawTable, t4: RawTable, t5: RawTable, z: Loc, b: Loc, w: Loc) {
    && Vacant(l, b) && t4 == Relocate(l, z, b)
    && Vacant(t4, z) && t5 == Relocate(t4, b + w, z)
  }

  lemma StackGrows(t: RawTable, z: Loc)
    requires |z| > 2 && Stack(t, z, |z| - 1) && z in t && z[|z| - 1] == Mnt
    ensures Stack(t, z, |z|)
  {
    forall n | 2 < n <= |z|
      ensures z[..n] in t && z[n - 1] == Mnt
    {
      if n == |z| {
        assert z[..n] == z;
      }
    }
  }

  lemma SwappedShape(l: RawTable, t4: RawTable, t5: RawTable, z: Loc, b: Loc, w: Loc, h: Loc)
    requires Ready(l, z, b, w, h) && Chain(l, t4, t5, z, b, w)
    ensures Vacant(t5, b + h)
    ensures z in t5 && z + [Mnt] !in t5 && b in t5 && b + [Mnt] !in t5
    ensures Stack(t5, z, |z|) && Stack(t5, z, |z| - 1)
  {
    hide Relocate, Ready, Valid, Stack, Swappable, Grounded;
    ReadyShape(l, z, b, w, h);
    ParkedShape(l, z, b, w, h);
    RealRunLeavesSlotVacant(l, z, b, w, h);
    var e: Loc := [];
    assert z + e == z && b + w + e == b + w && b + w + [Mnt] == b + (w + [Mnt]);
    BelowTarget(t4, b + w, z, e);
    BelowTarget(t4, b + w, z, [Mnt]);
    Apart(z, b, e, [Mnt]);
    Elsewhere(t4, b + w, z, b);
    Elsewhere(t4, b + w, z, b + [Mnt]);
    PrefixLeft(b, w, z[..|z| - 1]);
    PrefixOfPrefix(b, z, |z| - 1, |z|);
    StackStays(t4, b + w, z, z, |z| - 1);
    assert z[|z| - 1] == (z[..|z| - 1] + [Mnt])[|z| - 1];
    StackGrows(t5, z);
  }

  lemma SwappedBelow(l: RawTable, t4: RawTable, t5: RawTable, z: Loc, b: Loc, w: Loc, h: Loc, s: Loc)
    requires Ready(l, z, b, w, h) && Chain(l, t4, t5, z, b, w) && |s| < |w|
    ensures z + s in l <==> b + s in t5
  {
    hide Relocate, Ready, Valid;
    ReadyShape(l, z, b, w, h);
    BelowTarget(l, z, b, s);
    var e: Loc := [];
    assert z + e == z;
    Apart(z, b, e, s);
    Elsewhere(t4, b + w, z, b + s);
    PrefixCancel(b, w, s);
  }

  lemma HolderMove(l: RawTable, t4: RawTable, t5: Table, z: Loc, b: Loc, w: Loc, h: Loc)
    requires Ready(l, z, b, w, h) && Chain(l, t4, t5, z, b, w)
    ensures Vacant(t5, b + h)
    ensures Move(t5, ["run"], ViaSwap(PFSHOLDER) + ["run"]) == Ok(Relocate(t5, z, b + h))
  {
    hide Relocate, Ready, Vacant, Swappable, Grounded, Chain;
    ReadyShape(l, z, b, w, h);
    SwappedShape(l, t4, t5, z, b, w, h);
    var r := h[..|h| - 1];
    SlotEnd(Lookup(l, PFSHOLDER + ["run"]), z, h);
    forall n | 0 <= n <= |r|
      ensures (z + r[..n] + [Mnt] in l) <==> (b + r[..n] + [Mnt] in t5)
    {
      SwappedBelow(l, t4, t5, z, b, w, h, r[..n] + [Mnt]);
      assert z + r[..n] + [Mnt] == z + (r[..n] + [Mnt]) && b + r[..n] + [Mnt] == b + (r[..n] + [Mnt]);
    }
    var p := ["PivotZone", "pfsholder", "run"];
    assert ["run"] + p == PFSHOLDER + ["run"] && [ZRUNHOLDER] + p == ViaSwap(PFSHOLDER) + ["run"];
    ParkedPath(l, t5, z, b, p, r);
    StackLookup(t5, "run", z, |z|);
    var e: Loc := [];
    assert z + e == z;
    Apart(z, b, e, r);
    assert b + r + [Mnt] == b + (r + [Mnt]);
  }

  lemma SlotEnd(d: Loc, z: Loc, h: Loc)
    requires d + [Mnt] == z + h && h != []
    ensures d == z + h[..|h| - 1] && h[..|h| - 1] + [Mnt] == h
  {
    assert (z + h)[..|z + h| - 1] == z + h[..|h| - 1];
    assert d == (d + [Mnt])[..|d|];
    assert h[|h| - 1] == (z + h)[|z + h| - 1] == Mnt;
  }

  lemma UnparkMove(l: RawTable, t4: RawTable, t5: RawTable, t6: Table, z: Loc, b: Loc, w: Loc, h: Loc)
    requires Ready(l, z, b, w, h) && Chain(l, t4, t5, z, b, w)
    requires Vacant(t5, b + h) && t6 == Relocate(t5, z, b + h)
    ensures Vacant(t6, z)
    ensures Move(t6, [ZRUNHOLDER], ["run"]) == Ok(Relocate(t6, b, z))
  {
    hide Relocate, Ready, Vacant, Grounded;
    ReadyShape(l, z, b, w, h);
    SwappedShape(l, t4, t5, z, b, w, h);
    HolderLeavesRunVacant(l, z, b, w, h);
    var e: Loc := [];
    assert z + e == z && b + e == b;
    PrefixCancel(b, h, e);
    PrefixCancel(b, h, [Mnt]);
    Apart(z, b, e, [Mnt]);
    Elsewhere(t5, z, b + h, b);
    Elsewhere(t5, z, b + h, b + [Mnt]);
    StackStays(t5, z, b + h, z, |z| - 1);
    ParkedLookup(t6, b);
    VacantSpot(t6, z);
    StackLookup(t6, "run", z, |z| - 1);
    PrefixOfPrefix(b, z, |z| - 1, |z|);
  }

  lemma VacantSpot(t: RawTable, l: Loc)
    requires Vacant(t, l)
    ensures l !in t
  {
  }
}
