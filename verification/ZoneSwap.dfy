/**
 The swap of `/run` in `enter`: the zone's `/run`, which carries both the old root and the holder, is
 parked elsewhere, the real `/run` takes its place for a while, and then both go on.  Its net effect
 is the single move that the other file systems get.
 */
module ZoneSwap {
  import opened MountTable

  /** `z` is the zone's `/run`, `b` where it is parked, `z + w` the real `/run`, `z + h` its slot. */
  ghost predicate Swappable(t: RawTable, z: Loc, b: Loc, w: Loc, h: Loc) {
    && !(z <= b) && !(b <= z)
    && !(w <= h) && !(h <= w)
    && Vacant(t, b) && Vacant(t, z + h)
  }

  /** Where the four moves take a mount, one after the other. */
  function SwapPlace(z: Loc, b: Loc, w: Loc, h: Loc, k: Loc): (q: Loc) {
    Shift(b, z, Shift(z, b + h, Shift(b + w, z, Shift(z, b, k))))
  }

  lemma AfterPark(z: Loc, b: Loc, k: Loc)
    requires !(z <= b) && !(b <= z) && !(b <= k)
    ensures z <= k ==> Shift(z, b, k) == b + k[|z|..]
    ensures !(z <= k) ==> Shift(z, b, k) == k
    ensures !(z <= Shift(z, b, k))
  {
    if z <= k {
      Apart(z, b, [], k[|z|..]);
      assert z + [] == z;
    }
  }

  lemma AfterRealRun(z: Loc, b: Loc, w: Loc, h: Loc, k: Loc)
    requires !(z <= b) && !(b <= z) && !(b <= k) && !(z + h <= k)
    ensures var q := Shift(b + w, z, Shift(z, b, k));
            && (z + w <= k ==> q == z + k[|z + w|..])
            && (!(z + w <= k) ==> q == Shift(z, b, k) && !(z <= q))
            && !(b + h <= q)
  {
    AfterPark(z, b, k);
    var p := Shift(z, b, k);
    if z <= k {
      PrefixTail(z, k);
      PrefixCancel(z, w, k[|z|..]);
      PrefixCancel(b, w, k[|z|..]);
      PrefixCancel(z, h, k[|z|..]);
      PrefixCancel(b, h, k[|z|..]);
      if z + w <= k {
        assert p[|b + w|..] == k[|z + w|..];
        Apart(b, z, h, k[|z + w|..]);
      }
    } else {
      PrefixLeft(z, w, k);
      PrefixLeft(b, w, k);
      PrefixLeft(b, h, k);
    }
  }

  lemma RealRunPlace(z: Loc, b: Loc, h: Loc, rest: Loc)
    requires !(z <= b) && !(b <= z)
    ensures Shift(z, b + h, z + rest) == b + h + rest
    ensures !(z <= b + h + rest)
    ensures Shift(b, z, b + h + rest) == z + h + rest
  {
    PrefixLeft(z, rest, z + rest);
    assert b + h + rest == b + (h + rest) && z + (h + rest) == z + h + rest;
    PrefixLeft(b, h + rest, b + (h + rest));
    Apart(z, b, [], h + rest);
    assert z + [] == z;
  }

  lemma SwapPlaceIsShift(t: RawTable, z: Loc, b: Loc, w: Loc, h: Loc, k: Loc)
    requires Swappable(t, z, b, w, h) && k in t
    ensures SwapPlace(z, b, w, h, k) == Shift(z + w, z + h, k)
    ensures !(z <= Shift(z, b + h, Shift(b + w, z, Shift(z, b, k))))
  {
    AfterPark(z, b, k);
    AfterRealRun(z, b, w, h, k);
    hide Swappable, Vacant;
    if z + w <= k {
      RealRunPlace(z, b, h, k[|z + w|..]);
    } else if z <= k {
      PrefixTail(z, k);
      PrefixLeft(b, k[|z|..], b + k[|z|..]);
    }
  }

  lemma ParkLeavesRunVacant(t: RawTable, z: Loc, b: Loc)
    requires Vacant(t, b) && !(z <= b) && !(b <= z)
    ensures Vacant(Relocate(t, z, b), z)
  {
    hide Relocate;
    forall q | q in Relocate(t, z, b)
      ensures !(z <= q)
    {
      var k := RelocateFrom(t, z, b, q);
      AfterPark(z, b, k);
    }
  }

  lemma RealRunLeavesSlotVacant(t: RawTable, z: Loc, b: Loc, w: Loc, h: Loc)
    requires Swappable(t, z, b, w, h)
    ensures Vacant(Relocate(t, z, b), z)
    ensures Vacant(Relocate(Relocate(t, z, b), b + w, z), b + h)
  {
    hide Relocate;
    ParkLeavesRunVacant(t, z, b);
    var t4 := Relocate(t, z, b);
    forall q | q in Relocate(t4, b + w, z)
      ensures !(b + h <= q)
    {
      var p := RelocateFrom(t4, b + w, z, q);
      var k := RelocateFrom(t, z, b, p);
      AfterRealRun(z, b, w, h, k);
    }
  }

  lemma HolderLeavesRunVacant(t: RawTable, z: Loc, b: Loc, w: Loc, h: Loc)
    requires Swappable(t, z, b, w, h)
    ensures Vacant(Relocate(t, z, b), z)
    ensures Vacant(Relocate(Relocate(t, z, b), b + w, z), b + h)
    ensures Vacant(Relocate(Relocate(Relocate(t, z, b), b + w, z), z, b + h), z)
  {
    hide Relocate;
    RealRunLeavesSlotVacant(t, z, b, w, h);
    var t4 := Relocate(t, z, b);
    var t5 := Relocate(t4, b + w, z);
    forall q | q in Relocate(t5, z, b + h)
      ensures !(z <= q)
    {
      var p5 := RelocateFrom(t5, z, b + h, q);
      var p4 := RelocateFrom(t4, b + w, z, p5);
      var k := RelocateFrom(t, z, b, p4);
      SwapPlaceIsShift(t, z, b, w, h, k);
    }
  }

  /** The four moves together are one move of the real `/run` into its slot. */
  lemma SwapIsMove(t: RawTable, z: Loc, b: Loc, w: Loc, h: Loc)
    requires Swappable(t, z, b, w, h)
    ensures Vacant(Relocate(t, z, b), z)
    ensures Vacant(Relocate(Relocate(t, z, b), b + w, z), b + h)
    ensures Vacant(Relocate(Relocate(Relocate(t, z, b), b + w, z), z, b + h), z)
    ensures Relocate(Relocate(Relocate(Relocate(t, z, b), b + w, z), z, b + h), b, z)
         == Relocate(t, z + w, z + h)
  {
    hide Relocate, Shift, Vacant;
    HolderLeavesRunVacant(t, z, b, w, h);
    var t4 := Relocate(t, z, b);
    var t5 := Relocate(t4, b + w, z);
    var t6 := Relocate(t5, z, b + h);
    var t7, want := Relocate(t6, b, z), Relocate(t, z + w, z + h);
    forall q | q in want
      ensures q in t7 && want[q] == t7[q]
    {
      var k := RelocateFrom(t, z + w, z + h, q);
      SwapPlaceIsShift(t, z, b, w, h, k);
      var p4 := Shift(z, b, k);
      RelocateAt(t, z, b, k);
      var p5 := Shift(b + w, z, p4);
      RelocateAt(t4, b + w, z, p4);
      RelocateAt(t5, z, b + h, p5);
      RelocateAt(t6, b, z, Shift(z, b + h, p5));
    }
    forall q | q in t7
      ensures q in want
    {
      var p6 := RelocateFrom(t6, b, z, q);
      var p5 := RelocateFrom(t5, z, b + h, p6);
      var p4 := RelocateFrom(t4, b + w, z, p5);
      var k := RelocateFrom(t, z, b, p4);
      SwapPlaceIsShift(t, z, b, w, h, k);
      RelocateAt(t, z + w, z + h, k);
    }
    SameTable(want, t7);
  }
}
