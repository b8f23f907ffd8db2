/**
 The tables that `enter` and `exit` pass through, described from the table before the pivot.

 `Layout(f, names)` is that table after `pivot_root` into the zone, with the real mounts called
 `names` (`dev`, `proc`, ...) stashed below `_PFSHOLDER` and all others still below `_BACKINGROOT`.
 */
module ZoneLayout {
  import opened MountTable

  /**
   `u` is the table before the pivot, `zone` the place of the zone's root, `backing` and `hold` the
   places of its directories `_BACKINGROOT` and `_PFSHOLDER`, and `src` the places of the real mounts
   that will be stashed, by name.
   */
  datatype Frame = Frame(u: RawTable, zone: Loc, backing: Loc, hold: Loc, src: map<Name, Loc>) {

    /** Where the old root's directory and the holder are once the zone is the root. */
    function Put(): Loc
      requires |zone| <= |backing|
    {
      ROOT + backing[|zone|..]
    }

    function Hold(): Loc
      requires |zone| <= |hold|
    {
      ROOT + hold[|zone|..]
    }

    predicate Good() {
      && Valid(u)
      && zone in u && zone != ROOT && zone + [Mnt] !in u
      && zone < backing && zone < hold
      && Vacant(u, backing) && Vacant(u, hold)
      && backing[|backing| - 1] != Mnt && hold[|hold| - 1] != Mnt
      && Grounded(u, backing[..|backing| - 1])
      && !(hold <= backing) && !(backing <= hold)
      && (forall i | i in src ::
            src[i] in u && src[i] + [Mnt] !in u && ROOT + [Dir(i)] <= src[i] && !(zone <= src[i]))
    }

    /** The name under which the mount at `k` is stashed when `names` are. */
    predicate Stashed(names: set<Name>, k: Loc) {
      |k| > 1 && k[1].Dir? && k[1].name in names && k[1].name in src && src[k[1].name] <= k
    }

    function Slot(i: Name): Loc
      requires |zone| <= |hold|
    {
      Hold() + [Dir(i), Mnt]
    }

    /** Where the mount that was at `k` is. */
    function Place(names: set<Name>, k: Loc): Loc
      requires |zone| <= |backing| && |zone| <= |hold|
    {
      if zone <= k then ROOT + k[|zone|..]
      else if Stashed(names, k) then Slot(k[1].name) + k[|src[k[1].name]|..]
      else Put() + k
    }

    /** The inverse of `Place`, whatever is stashed. */
    function Origin(q: Loc): Loc
      requires |zone| <= |backing| && |zone| <= |hold|
    {
      if Hold() <= q && |q| >= |Hold()| + 2 && q[|Hold()|].Dir? && q[|Hold()|].name in src then
        src[q[|Hold()|].name] + q[|Hold()| + 2..]
      else if Put() + [Mnt] <= q then q[|Put()|..]
      else if q != [] then zone + q[1..]
      else []
    }
  }

  // ---------------------------------------------------------------------------------------------
  // Places are distinct
  // ---------------------------------------------------------------------------------------------

  lemma ZonePlace(f: Frame, k: Loc)
    requires f.Good() && k in f.u && f.zone <= k
    ensures !(f.Hold() <= ROOT + k[|f.zone|..])
    ensures !(f.Put() <= ROOT + k[|f.zone|..])
  {
    var q := ROOT + k[|f.zone|..];
    assert k == f.zone + q[1..];
    PrefixUnshift(f.zone, f.hold, k);
    PrefixUnshift(f.zone, f.backing, k);
  }

  /** Replacing the common prefix `zone` by the root keeps the prefix order. */
  lemma PrefixUnshift(zone: Loc, a: Loc, k: Loc)
    requires zone <= a && zone <= k
    ensures ROOT + a[|zone|..] <= ROOT + k[|zone|..] ==> a <= k
  {
    if ROOT + a[|zone|..] <= ROOT + k[|zone|..] {
      var x, y := ROOT + a[|zone|..], ROOT + k[|zone|..];
      assert a == zone + x[1..] && k == zone + y[1..];
      assert y == x + y[|x|..];
      assert k == a + y[|x|..];
    }
  }

  lemma PutHoldApart(f: Frame, q: Loc)
    requires f.Good()
    ensures !(f.Put() <= q && f.Hold() <= q)
  {
    PrefixUnshift(f.zone, f.hold, f.backing);
    PrefixUnshift(f.zone, f.backing, f.hold);
    Comparable(f.Put(), f.Hold(), q);
  }

  lemma OriginInZone(f: Frame, k: Loc)
    requires f.Good() && k in f.u && f.zone <= k
    ensures f.Origin(ROOT + k[|f.zone|..]) == k
  {
    hide Valid, Vacant, Grounded;
    var q := ROOT + k[|f.zone|..];
    ZonePlace(f, k);
    assert f.zone + q[1..] == k;
  }

  lemma OriginInSlot(f: Frame, i: Name, k: Loc)
    requires f.Good() && i in f.src && f.src[i] <= k
    ensures f.Origin(f.Slot(i) + k[|f.src[i]|..]) == k
  {
    var q := f.Slot(i) + k[|f.src[i]|..];
    assert q[..|f.Hold()|] == f.Hold() && q[|f.Hold()|] == Dir(i);
    assert q[|f.Hold()| + 2..] == k[|f.src[i]|..];
  }

  lemma OriginBelowPut(f: Frame, k: Loc)
    requires f.Good() && k in f.u
    ensures f.Origin(f.Put() + k) == k
  {
    var q := f.Put() + k;
    assert MountLoc(k);
    PutHoldApart(f, q);
    assert q[..|f.Put()|] == f.Put() && q[|f.Put()|] == Mnt;
    assert q[|f.Put()|..] == k;
    assert f.Put() + [Mnt] <= q;
  }

  lemma OriginOfPlace(f: Frame, names: set<Name>, k: Loc)
    requires f.Good() && k in f.u
    ensures f.Origin(f.Place(names, k)) == k
  {
    if f.zone <= k {
      OriginInZone(f, k);
    } else if f.Stashed(names, k) {
      OriginInSlot(f, k[1].name, k);
    } else {
      OriginBelowPut(f, k);
    }
  }

  function Layout(f: Frame, names: set<Name>): (r: RawTable)
    requires f.Good()
  {
    assert forall k, k' | k in f.u && k' in f.u && f.Place(names, k) == f.Place(names, k') :: k == k' by {
      forall k, k' | k in f.u && k' in f.u && f.Place(names, k) == f.Place(names, k')
        ensures k == k'
      {
        OriginOfPlace(f, names, k);
        OriginOfPlace(f, names, k');
      }
    }
    map k | k in f.u :: f.Place(names, k) := f.u[k]
  }

  lemma LayoutAt(f: Frame, names: set<Name>, k: Loc)
    requires f.Good() && k in f.u
    ensures f.Place(names, k) in Layout(f, names) && Layout(f, names)[f.Place(names, k)] == f.u[k]
  {
    var q := f.Place(names, k);
    var k' :| k' in f.u && f.Place(names, k') == q && Layout(f, names)[q] == f.u[k'];
    OriginOfPlace(f, names, k);
    OriginOfPlace(f, names, k');
  }

  lemma LayoutFrom(f: Frame, names: set<Name>, q: Loc) returns (k: Loc)
    requires f.Good() && q in Layout(f, names)
    ensures k in f.u && f.Place(names, k) == q && Layout(f, names)[q] == f.u[k] && k == f.Origin(q)
  {
    k :| k in f.u && f.Place(names, k) == q;
    LayoutAt(f, names, k);
    OriginOfPlace(f, names, k);
  }

  // ---------------------------------------------------------------------------------------------
  // Pivoting in gives the layout with nothing stashed, pivoting out undoes it
  // ---------------------------------------------------------------------------------------------

  lemma FrameSwings(f: Frame)
    requires f.Good()
    ensures Swingable(f.u, f.zone, f.backing)
  {
    assert MountLoc(f.zone);
  }

  lemma SwungInLayout(f: Frame, q: Loc)
    requires f.Good() && Swingable(f.u, f.zone, f.backing)
    requires q in Swung(f.u, f.zone, f.backing)
    ensures q in Layout(f, {}) && Layout(f, {})[q] == Swung(f.u, f.zone, f.backing)[q]
  {
    hide Layout, Swung;
    var k := SwungFrom(f.u, f.zone, f.backing, q);
    LayoutAt(f, {}, k);
  }

  lemma LayoutInSwung(f: Frame, q: Loc)
    requires f.Good() && Swingable(f.u, f.zone, f.backing)
    requires q in Layout(f, {})
    ensures q in Swung(f.u, f.zone, f.backing)
  {
    hide Layout, Swung;
    var k := LayoutFrom(f, {}, q);
    SwungAt(f.u, f.zone, f.backing, k);
  }

  lemma PivotGivesLayout(f: Frame)
    requires f.Good()
    ensures Swingable(f.u, f.zone, f.backing)
    ensures Swung(f.u, f.zone, f.backing) == Layout(f, {})
  {
    hide Layout, Swung;
    FrameSwings(f);
    var a, b := Swung(f.u, f.zone, f.backing), Layout(f, {});
    forall q | q in a
      ensures q in b && a[q] == b[q]
    {
      SwungInLayout(f, q);
    }
    forall q | q in b
      ensures q in a
    {
      LayoutInSwung(f, q);
    }
    SameTable(a, b);
  }

  // ---------------------------------------------------------------------------------------------
  // Stashing one real mount
  // ---------------------------------------------------------------------------------------------

  lemma PlacedBelowPut(f: Frame, names: set<Name>, k: Loc, x: Loc)
    requires f.Good() && k in f.u
    ensures f.Put() + x <= f.Place(names, k) <==> (!(f.zone <= k) && !f.Stashed(names, k) && x <= k)
  {
    var q := f.Place(names, k);
    PrefixLeft(f.Put(), x, q);
    if f.zone <= k {
      ZonePlace(f, k);
    } else if f.Stashed(names, k) {
      assert q[..|f.Hold()|] == f.Hold();
      PutHoldApart(f, q);
    } else {
      PrefixCancel(f.Put(), x, k);
    }
  }

  lemma PlacedBelowHold(f: Frame, names: set<Name>, k: Loc)
    requires f.Good() && k in f.u
    ensures f.Hold() <= f.Place(names, k) <==> (!(f.zone <= k) && f.Stashed(names, k))
  {
    var q := f.Place(names, k);
    if f.zone <= k {
      ZonePlace(f, k);
    } else if f.Stashed(names, k) {
      assert q[..|f.Hold()|] == f.Hold();
    } else {
      assert q[..|f.Put()|] == f.Put();
      PutHoldApart(f, q);
    }
  }

  lemma SlotIsVacant(f: Frame, names: set<Name>, i: Name)
    requires f.Good() && i !in names
    ensures Vacant(Layout(f, names), f.Slot(i))
  {
    hide Layout;
    forall q | q in Layout(f, names)
      ensures !(f.Slot(i) <= q)
    {
      var k := LayoutFrom(f, names, q);
      SlotHolds(f, names, i, k);
    }
  }

  lemma SlotHolds(f: Frame, names: set<Name>, i: Name, k: Loc)
    requires f.Good() && k in f.u
    ensures f.Slot(i) <= f.Place(names, k) ==> !(f.zone <= k) && f.Stashed(names, k) && k[1] == Dir(i)
  {
    var q := f.Place(names, k);
    PlacedBelowHold(f, names, k);
    if f.Slot(i) <= q {
      assert q[..|f.Hold()|] == f.Hold() && q[|f.Hold()|] == Dir(i);
    }
  }

  lemma ShiftStashes(f: Frame, names: set<Name>, i: Name, k: Loc)
    requires f.Good() && k in f.u && i in f.src && i !in names
    ensures Shift(f.Put() + f.src[i], f.Slot(i), f.Place(names, k)) == f.Place(names + {i}, k)
  {
    var a, q := f.Put() + f.src[i], f.Place(names, k);
    PlacedBelowPut(f, names, k, f.src[i]);
    if a <= q {
      assert k[1] == Dir(i) by {
        assert k[..|f.src[i]|] == f.src[i];
        assert f.src[i][1] == Dir(i);
      }
      assert q[|a|..] == k[|f.src[i]|..];
    }
  }

  /** One `mount --move` from below `_BACKINGROOT` to `_PFSHOLDER` leads from one layout to the next. */
  lemma StashGivesLayout(f: Frame, names: set<Name>, i: Name)
    requires f.Good() && i in f.src && i !in names
    ensures Vacant(Layout(f, names), f.Slot(i))
    ensures Relocate(Layout(f, names), f.Put() + f.src[i], f.Slot(i)) == Layout(f, names + {i})
  {
    hide Layout, Relocate, Vacant;
    SlotIsVacant(f, names, i);
    var t := Layout(f, names);
    var a, b := f.Put() + f.src[i], f.Slot(i);
    var t', l' := Relocate(t, a, b), Layout(f, names + {i});
    forall q' | q' in l'
      ensures q' in t' && t'[q'] == l'[q']
    {
      var k := LayoutFrom(f, names + {i}, q');
      ShiftStashes(f, names, i, k);
      LayoutAt(f, names, k);
      RelocateAt(t, a, b, f.Place(names, k));
    }
    forall q' | q' in t'
      ensures q' in l'
    {
      var q := RelocateFrom(t, a, b, q');
      var k := LayoutFrom(f, names, q);
      ShiftStashes(f, names, i, k);
      LayoutAt(f, names + {i}, k);
    }
  }

  // ---------------------------------------------------------------------------------------------
  // Moving back
  // ---------------------------------------------------------------------------------------------

  /** A move is undone by the opposite move. */
  lemma RelocateBack(t: RawTable, a: Loc, b: Loc)
    requires Vacant(t, b)
    requires !(a <= b) && !(b <= a)
    ensures Vacant(Relocate(t, a, b), a)
    ensures Relocate(Relocate(t, a, b), b, a) == t
  {
    hide Relocate;
    var t' := Relocate(t, a, b);
    forall q | q in t'
      ensures !(a <= q)
    {
      var k := RelocateFrom(t, a, b, q);
      if a <= k {
        assert b <= q;
        Comparable(a, b, q);
      }
    }
    var t'' := Relocate(t', b, a);
    forall k | k in t
      ensures k in t'' && t''[k] == t[k]
    {
      ShiftBack(a, b, k);
      RelocateAt(t, a, b, k);
      RelocateAt(t', b, a, Shift(a, b, k));
    }
    forall q | q in t''
      ensures q in t
    {
      var q' := RelocateFrom(t', b, a, q);
      var k := RelocateFrom(t, a, b, q');
      ShiftBack(a, b, k);
    }
  }

  lemma SlotApart(f: Frame, i: Name, x: Loc)
    requires f.Good()
    ensures !(f.Put() + x <= f.Slot(i)) && !(f.Slot(i) <= f.Put() + x)
  {
    var a, b := f.Put() + x, f.Slot(i);
    assert a[..|f.Put()|] == f.Put() && b[..|f.Hold()|] == f.Hold();
    assert f.Put() <= a && f.Hold() <= b;
    if a <= b {
      assert f.Put() <= b;
    }
    if b <= a {
      assert f.Hold() <= a;
    }
    PutHoldApart(f, a);
    PutHoldApart(f, b);
  }

  lemma UnstashGivesLayout(f: Frame, names: set<Name>, i: Name)
    requires f.Good() && i in f.src && i !in names
    ensures Vacant(Layout(f, names + {i}), f.Put() + f.src[i])
    ensures Relocate(Layout(f, names + {i}), f.Slot(i), f.Put() + f.src[i]) == Layout(f, names)
  {
    hide Layout, Relocate, Vacant;
    StashGivesLayout(f, names, i);
    SlotApart(f, i, f.src[i]);
    RelocateBack(Layout(f, names), f.Put() + f.src[i], f.Slot(i));
  }
}
