/** How paths resolve after a mount has come or gone. */
module MountPaths {
  import opened MountTable

  /** The steps from `l` to the topmost mount stacked there are all mounts. */
  lemma {:induction false} TopSteps(t: RawTable, l: Loc)
    ensures l <= Top(t, l)
    ensures forall n | |l| < n <= |Top(t, l)| :: Top(t, l)[..n] in t && Top(t, l)[n - 1] == Mnt
    decreases |Above(t, l)|
  {
    TopExtends(t, l);
    if l + [Mnt] in t {
      AboveShrinks(t, l);
      TopSteps(t, l + [Mnt]);
      var r := Top(t, l);
      TopExtends(t, l + [Mnt]);
      forall n | |l| < n <= |r|
        ensures r[..n] in t && r[n - 1] == Mnt
      {
        if n == |l| + 1 {
          assert r[..n] == l + [Mnt];
        }
      }
    }
  }

  lemma {:induction false} TopIs(t: RawTable, l: Loc, r: Loc)
    requires l <= r && r + [Mnt] !in t
    requires forall n | |l| < n <= |r| :: r[..n] in t && r[n - 1] == Mnt
    ensures Top(t, l) == r
    decreases |r| - |l|
  {
    if l != r {
      assert r[..|l| + 1] == l + [Mnt];
      TopIs(t, l + [Mnt], r);
    }
  }

  lemma ResolveFromTop(t: RawTable, l: Loc, p: Path)
    ensures Resolve(t, l, p) == Resolve(t, Top(t, l), p)
  {
    TopOfTop(t, l);
  }

  lemma ResolveName(t: RawTable, l: Loc, i: Name)
    ensures Resolve(t, l, [i]) == Top(t, Top(t, l) + [Dir(i)])
  {
    assert [i][1..] == [];
  }

  lemma LookupName(t: RawTable, p: Path, i: Name)
    ensures Lookup(t, p + [i]) == Top(t, Lookup(t, p) + [Dir(i)])
    ensures Lookup(t, p) + [Dir(i)] <= Lookup(t, p + [i])
  {
    ResolveCompose(t, [], p, [i]);
    ResolveExtends(t, [], p);
    ResolveName(t, Lookup(t, p), i);
    TopExtends(t, Lookup(t, p) + [Dir(i)]);
    assert Top(t, Lookup(t, p)) == Lookup(t, p);
  }

  /** When `t'` covers the same places as `t` on the way, a path leads to the same place in both. */
  lemma SameLookup(t: RawTable, t': RawTable, p: Path)
    requires forall n | 0 <= n <= |Lookup(t, p)| ::
               (Lookup(t, p)[..n] + [Mnt] in t) <==> (Lookup(t, p)[..n] + [Mnt] in t')
    ensures Lookup(t', p) == Lookup(t, p)
  {
    var r := Lookup(t, p);
    var e: Loc := [];
    assert e + e == e && e + r == r;
    forall n | 0 <= n <= |r|
      ensures (e + r[..n] + [Mnt] in t) <==> (e + r[..n] + [Mnt] in t')
    {
      assert e + r[..n] + [Mnt] == r[..n] + [Mnt];
    }
    Transport(t, e, t', e, e, p, r);
  }

  /** Without the mount it led to, a path leads to what that mount covered. */
  lemma LookupWithout(t: RawTable, p: Path, i: Name)
    requires Lookup(t, p + [i]) in t
    ensures var r := Lookup(t, p + [i]);
            && (Lookup(t, p) + [Dir(i)] < r ==> Lookup(t - {r}, p + [i]) == r[..|r| - 1])
            && Lookup(t - {r}, p) == Lookup(t, p)
  {
    var q, r := Lookup(t, p), Lookup(t, p + [i]);
    LookupName(t, p, i);
    forall n | 0 <= n <= |q|
      ensures (q[..n] + [Mnt] in t) <==> (q[..n] + [Mnt] in t - {r})
    {
      assert r[|q|] == Dir(i);
    }
    SameLookup(t, t - {r}, p);
    if q + [Dir(i)] < r {
      TopSteps(t, q + [Dir(i)]);
      var b := r[..|r| - 1];
      LookupName(t - {r}, p, i);
      assert r[..|r|] == r && r[|r| - 1] == Mnt;
      assert b + [Mnt] == r;
      forall n | |q| + 1 < n <= |b|
        ensures b[..n] in t - {r} && b[n - 1] == Mnt
      {
        assert b[..n] == r[..n] && r[n - 1] == Mnt;
      }
      TopIs(t - {r}, q + [Dir(i)], b);
    }
  }

  lemma MountedLookup(t: RawTable, p: Path, i: Name)
    requires Valid(t) && Lookup(t, p + [i]) in t
    ensures Lookup(t, p) + [Dir(i)] < Lookup(t, p + [i])
  {
    LookupName(t, p, i);
    assert MountLoc(Lookup(t, p + [i]));
  }

  /** Mounting the same thing again undoes an `umount`. */
  lemma AttachUndoesUnmount(t: Table, p: Path, i: Name)
    requires Unmount(t, p + [i]).Ok?
    ensures Attach(Unmount(t, p + [i]).value, p + [i], t[Lookup(t, p + [i])]) == t
  {
    hide Resolve, Grounded;
    var r := Lookup(t, p + [i]);
    MountedLookup(t, p, i);
    LookupWithout(t, p, i);
    assert MountLoc(r);
    assert r[..|r| - 1] + [Mnt] == r;
    assert (t - {r})[r := t[r]] == t;
  }

  /** A new mount is what its path leads to, and nothing is mounted on it. */
  lemma AttachedLookup(t: Table, p: Path, i: Name, fs: Fs)
    ensures var l := Lookup(t, p + [i]) + [Mnt];
            && l !in t
            && Lookup(Attach(t, p + [i], fs), p + [i]) == l
            && Lookup(Attach(t, p + [i], fs), p) == Lookup(t, p)
            && (forall k | k in t :: !(l < k))
  {
    hide Resolve, Grounded;
    var q, d := Lookup(t, p), Lookup(t, p + [i]);
    var t' := Attach(t, p + [i], fs);
    ResolveExtends(t, [], p + [i]);
    UnmountedIsVacant(t, d);
    LookupName(t, p, i);
    forall n | 0 <= n <= |q|
      ensures (q[..n] + [Mnt] in t) <==> (q[..n] + [Mnt] in t')
    {
      assert d[|q|] == Dir(i);
    }
    SameLookup(t, t', p);
    LookupName(t', p, i);
    TopSteps(t, q + [Dir(i)]);
    var l := d + [Mnt];
    forall n | |q| + 1 < n <= |l|
      ensures l[..n] in t' && l[n - 1] == Mnt
    {
      if n < |l| {
        assert l[..n] == d[..n] && d[n - 1] == Mnt;
      } else {
        assert l[..n] == l;
      }
    }
    TopIs(t', q + [Dir(i)], l);
  }

  /** `umount` undoes `mount`, and is never refused right after it. */
  lemma UnmountUndoesAttach(t: Table, p: Path, i: Name, fs: Fs)
    ensures Unmount(Attach(t, p + [i], fs), p + [i]) == Ok(t)
  {
    AttachedLookup(t, p, i, fs);
    var l := Lookup(t, p + [i]) + [Mnt];
    LookupShape(t, p + [i]);
    assert t[l := fs] - {l} == t;
  }
}
