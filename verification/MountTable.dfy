/**
 The mount table of one Linux mount namespace, as the commands `mount`, `umount` and `pivot_root`
 see it.

 A mount is identified by the place it is mounted at.  A place (`Loc`) is the list of directory steps
 from the root, with one `Mnt` step for every mount that is crossed on the way.  The second of two
 mounts stacked on `/proc` is therefore at `[Mnt, Dir("proc"), Mnt, Mnt]`, and a mount hidden below it
 keeps a place of its own.  Moving a mount moves every place that extends it, hidden ones included.
 */
module MountTable {
  type Name = string

  /** The components of an absolute path; `[]` is `/`. */
  type Path = seq<Name>

  datatype Step = Dir(name: Name) | Mnt

  type Loc = seq<Step>

  /** What is mounted: the first and third columns of `/proc/mounts`. */
  datatype Fs = Fs(device: string, kind: string)

  type RawTable = map<Loc, Fs>

  /** The tables a kernel can be in; every command below takes one to another. */
  type Table = t: RawTable | Valid(t) witness RootOnly(Fs("rootfs", "rootfs"))

  datatype Error =
    | NotMounted          // the path is not a mount point
    | Busy                // other mounts are mounted below
    | Loop                // the target lies inside the mount being moved
    | NotBelow            // pivot_root: the old root's new place is not inside the new root
    | AlreadyEntered
    | NotInZone
    | DirectoryExists
    | DirectoryMissing
    | AttributeMissing

  datatype Result<+T> = Ok(value: T) | Err(error: Error)

  const ROOT: Loc := [Mnt]

  // ---------------------------------------------------------------------------------------------
  // Prefixes
  // ---------------------------------------------------------------------------------------------

  lemma PrefixTail(a: Loc, k: Loc)
    requires a <= k
    ensures k == a + k[|a|..]
  {
  }

  lemma SnocLast(l: Loc)
    requires l != []
    ensures l[..|l| - 1] + [l[|l| - 1]] == l
  {
  }

  lemma PrefixLeft(a: Loc, x: Loc, q: Loc)
    ensures a + x <= q ==> a <= q
    ensures a <= a + x && (a + x)[|a|..] == x
  {
    if a + x <= q {
      assert q[..|a|] == (a + x)[..|a|] == a;
    }
  }

  lemma PrefixCancel(x: Loc, a: Loc, b: Loc)
    ensures x + a <= x + b <==> a <= b
  {
    if a <= b {
      assert x + b == x + a + b[|a|..];
    }
    if x + a <= x + b {
      assert (x + b)[..|x + a|] == x + a;
      assert forall i | 0 <= i < |a| :: a[i] == (x + a)[|x| + i] == (x + b)[|x| + i] == b[i];
    }
  }

  lemma Comparable(a: Loc, b: Loc, q: Loc)
    ensures a <= q && b <= q ==> a <= b || b <= a
  {
    if a <= q && b <= q && |a| <= |b| {
      assert a == q[..|a|] && b[..|a|] == q[..|a|];
    } else if a <= q && b <= q {
      assert b == q[..|b|] && a[..|b|] == q[..|b|];
    }
  }

  /** What extends one of two incomparable places does not extend the other. */
  lemma Apart(a: Loc, b: Loc, x: Loc, y: Loc)
    ensures a + x <= b + y ==> a <= b || b <= a
  {
    PrefixLeft(a, x, b + y);
    PrefixLeft(b, y, b + y);
    Comparable(a, b, b + y);
  }

  // ---------------------------------------------------------------------------------------------
  // Well-formed tables
  // ---------------------------------------------------------------------------------------------

  /** Every mount crossed on the way to `l` exists. */
  predicate Grounded(t: RawTable, l: Loc) {
    forall n | 0 <= n < |l| && l[n] == Mnt :: l[..n + 1] in t
  }

  predicate MountLoc(l: Loc) {
    l != [] && l[0] == Mnt && l[|l| - 1] == Mnt
  }

  /** The process root is mounted, not covered, and every mount hangs from mounts that exist. */
  predicate Valid(t: RawTable) {
    && ROOT in t
    && ROOT + [Mnt] !in t
    && (forall l {:trigger MountLoc(l)} {:trigger Grounded(t, l)} | l in t :: MountLoc(l) && Grounded(t, l))
  }

  /** The table in which only the root is mounted. */
  function RootOnly(fs: Fs): (t: RawTable)
    ensures Valid(t) && t.Keys == {ROOT}
  {
    var t := map[ROOT := fs];
    assert ROOT[..1] == ROOT;
    t
  }

  /** Nothing is mounted at `l` or below it. */
  predicate Vacant(t: RawTable, l: Loc) {
    forall k | k in t :: !(l <= k)
  }

  lemma PrefixesAreMounted(t: RawTable, l: Loc)
    requires Valid(t)
    ensures forall k | k in t && l + [Mnt] <= k :: l + [Mnt] in t
  {
    forall k | k in t && l + [Mnt] <= k
      ensures l + [Mnt] in t
    {
      assert k[..|l| + 1] == l + [Mnt];
      assert Grounded(t, k) && k[|l|] == Mnt;
    }
  }

  /** A place that is not covered has no mounts hidden under it either. */
  lemma UnmountedIsVacant(t: RawTable, l: Loc)
    requires Valid(t)
    requires l + [Mnt] !in t
    ensures Vacant(t, l + [Mnt])
  {
    PrefixesAreMounted(t, l);
  }

  /** Two tables with the same entries are equal. */
  lemma SameTable(a: RawTable, b: RawTable)
    requires forall q {:trigger q in a} | q in a :: q in b && a[q] == b[q]
    requires forall q {:trigger q in b} | q in b :: q in a
    ensures a == b
  {
  }

  // ---------------------------------------------------------------------------------------------
  // Path resolution
  // ---------------------------------------------------------------------------------------------

  ghost function Above(t: RawTable, l: Loc): set<Loc> {
    set k | k in t && l < k
  }

  lemma AboveShrinks(t: RawTable, l: Loc)
    requires l + [Mnt] in t
    ensures |Above(t, l + [Mnt])| < |Above(t, l)|
  {
    var small, big := Above(t, l + [Mnt]), Above(t, l);
    assert small <= big;
    assert l + [Mnt] in big && l + [Mnt] !in small;
    ProperSubsetIsSmaller(small, big);
  }

  lemma ProperSubsetIsSmaller<T>(a: set<T>, b: set<T>)
    requires a < b
    ensures |a| < |b|
  {
    var extra := b - a;
    assert b == a + extra && a !! extra;
    assert extra != {};
  }

  /** The topmost mount stacked at `l`, or `l` itself when nothing is mounted there. */
  function Top(t: RawTable, l: Loc): (r: Loc)
    decreases |Above(t, l)|
  {
    if l + [Mnt] in t then
      AboveShrinks(t, l);
      Top(t, l + [Mnt])
    else l
  }

  /** Where following `p` from `l` ends, crossing every mount point met on the way. */
  function Resolve(t: RawTable, l: Loc, p: Path): (r: Loc)
    decreases p
  {
    if p == [] then Top(t, l) else Resolve(t, Top(t, l) + [Dir(p[0])], p[1..])
  }

  function Lookup(t: RawTable, p: Path): (r: Loc) {
    Resolve(t, [], p)
  }

  predicate IsMount(t: RawTable, p: Path) {
    Lookup(t, p) in t
  }

  lemma {:induction false} TopExtends(t: RawTable, l: Loc)
    ensures l <= Top(t, l)
    ensures Top(t, l) + [Mnt] !in t
    ensures Top(t, l) == l || Top(t, l) in t
    ensures Grounded(t, l) ==> Grounded(t, Top(t, l))
    decreases |Above(t, l)|
  {
    if l + [Mnt] in t {
      AboveShrinks(t, l);
      TopExtends(t, l + [Mnt]);
      if Grounded(t, l) {
        GroundedSnoc(t, l, Mnt);
      }
    }
  }

  lemma GroundedSnoc(t: RawTable, l: Loc, s: Step)
    requires Grounded(t, l)
    requires s == Mnt ==> l + [s] in t
    ensures Grounded(t, l + [s])
  {
    forall n | 0 <= n < |l| + 1 && (l + [s])[n] == Mnt
      ensures (l + [s])[..n + 1] in t
    {
      if n < |l| {
        assert (l + [s])[..n + 1] == l[..n + 1];
      } else {
        assert (l + [s])[..n + 1] == l + [s];
      }
    }
  }

  lemma {:induction false} ResolveExtends(t: RawTable, l: Loc, p: Path)
    ensures l <= Resolve(t, l, p)
    ensures Resolve(t, l, p) + [Mnt] !in t
    ensures Grounded(t, l) ==> Grounded(t, Resolve(t, l, p))
    ensures p != [] ==> |Top(t, l)| < |Resolve(t, l, p)| && Top(t, l) + [Dir(p[0])] <= Resolve(t, l, p)
    decreases p
  {
    TopExtends(t, l);
    if p != [] {
      var next := Top(t, l) + [Dir(p[0])];
      if Grounded(t, l) {
        GroundedSnoc(t, Top(t, l), Dir(p[0]));
      }
      ResolveExtends(t, next, p[1..]);
    }
  }

  lemma TopOfTop(t: RawTable, l: Loc)
    ensures Top(t, Top(t, l)) == Top(t, l)
  {
    TopExtends(t, l);
  }

  /** Following `p` and then `q` is following `p + q`. */
  lemma {:induction false} ResolveCompose(t: RawTable, l: Loc, p: Path, q: Path)
    ensures Resolve(t, l, p + q) == Resolve(t, Resolve(t, l, p), q)
    decreases p
  {
    if p == [] {
      assert p + q == q;
      TopOfTop(t, l);
    } else {
      assert (p + q)[1..] == p[1..] + q;
      ResolveCompose(t, Top(t, l) + [Dir(p[0])], p[1..], q);
    }
  }

  /** The two tables agree, place by place, on which of the places up to `r` are covered. */
  ghost predicate Agree(t: RawTable, x: Loc, t': RawTable, x': Loc, r: Loc) {
    forall n | 0 <= n <= |r| :: (x + r[..n] + [Mnt] in t) <==> (x' + r[..n] + [Mnt] in t')
  }

  lemma {:induction false} TransportTop(t: RawTable, x: Loc, t': RawTable, x': Loc, s: Loc, r: Loc)
    requires Top(t, x + s) == x + r
    requires Agree(t, x, t', x', r)
    ensures s <= r
    ensures Top(t', x' + s) == x' + r
    decreases |Above(t, x + s)|
  {
    TopExtends(t, x + s);
    assert s == (x + s)[|x|..] && r == (x + r)[|x|..];
    assert s <= r;
    assert s == r[..|s|];
    if x + s + [Mnt] in t {
      AboveShrinks(t, x + s);
      assert x + s + [Mnt] == x + (s + [Mnt]);
      assert x' + s + [Mnt] == x' + (s + [Mnt]);
      TransportTop(t, x, t', x', s + [Mnt], r);
    }
  }

  /**
   Resolution is local: when `t'` below `x'` covers the same places as `t` below `x` all along the
   way, a path resolves to the same place relative to `x'` as it does relative to `x`.
   */
  lemma {:induction false} Transport(t: RawTable, x: Loc, t': RawTable, x': Loc, s: Loc, p: Path, r: Loc)
    requires Resolve(t, x + s, p) == x + r
    requires Agree(t, x, t', x', r)
    ensures Resolve(t', x' + s, p) == x' + r
    decreases p
  {
    if p == [] {
      TransportTop(t, x, t', x', s, r);
    } else {
      var m := Top(t, x + s);
      TopExtends(t, x + s);
      ResolveExtends(t, m + [Dir(p[0])], p[1..]);
      assert m + [Dir(p[0])] <= x + r;
      var d := m[|x|..];
      assert m == x + d;
      assert d <= r by {
        assert forall i | 0 <= i < |d| :: d[i] == (x + r)[|x| + i] == r[i];
      }
      assert Agree(t, x, t', x', d) by {
        forall n | 0 <= n <= |d|
          ensures (x + d[..n] + [Mnt] in t) <==> (x' + d[..n] + [Mnt] in t')
        {
          assert d[..n] == r[..n];
        }
      }
      TransportTop(t, x, t', x', s, d);
      assert x + d + [Dir(p[0])] == x + (d + [Dir(p[0])]);
      assert x' + d + [Dir(p[0])] == x' + (d + [Dir(p[0])]);
      Transport(t, x, t', x', d + [Dir(p[0])], p[1..], r);
    }
  }

  // ---------------------------------------------------------------------------------------------
  // mount, umount
  // ---------------------------------------------------------------------------------------------

  /** A path other than `/` leads to a place inside some mount, not to the root itself. */
  lemma LookupShape(t: RawTable, p: Path)
    requires Valid(t)
    ensures p == [] ==> Lookup(t, p) == ROOT
    ensures p != [] ==> ROOT + [Dir(p[0])] <= Lookup(t, p)
  {
    assert [] + [Mnt] == ROOT;
    assert Top(t, []) == Top(t, ROOT) == ROOT;
    ResolveExtends(t, [], p);
  }

  lemma LeafRemovalKeepsGround(t: RawTable, l: Loc, k: Loc)
    requires Grounded(t, k) && k in t && k != l
    requires !(l < k)
    ensures Grounded(t - {l}, k)
  {
    forall n | 0 <= n < |k| && k[n] == Mnt
      ensures k[..n + 1] in t - {l}
    {
      assert k[..n + 1] == k || k[..n + 1] < k;
    }
  }

  lemma AttachKeepsValid(t: RawTable, p: Path, fs: Fs)
    requires Valid(t) && p != []
    ensures Valid(t[Lookup(t, p) + [Mnt] := fs])
  {
    var l := Lookup(t, p);
    var t' := t[l + [Mnt] := fs];
    LookupShape(t, p);
    ResolveExtends(t, [], p);
    forall k | k in t'
      ensures MountLoc(k) && Grounded(t', k)
    {
      if k == l + [Mnt] {
        assert Grounded(t', l);
        GroundedSnoc(t', l, Mnt);
      } else {
        assert Grounded(t, k);
      }
    }
  }

  lemma LeafRemovalKeepsValid(t: RawTable, l: Loc)
    requires Valid(t) && l != ROOT
    requires forall k | k in t :: !(l < k)
    ensures Valid(t - {l})
  {
    forall k | k in t - {l}
      ensures MountLoc(k) && Grounded(t - {l}, k)
    {
      LeafRemovalKeepsGround(t, l, k);
    }
  }

  /** `mount -t kind device p`, and `mount --bind / p` with the root's own file system. */
  function Attach(t: Table, p: Path, fs: Fs): (r: Table)
    requires p != []
  {
    AttachKeepsValid(t, p, fs);
    t[Lookup(t, p) + [Mnt] := fs]
  }

  function Unmount(t: Table, p: Path): (r: Result<Table>) {
    var l := Lookup(t, p);
    if l !in t then Err(NotMounted)
    else if l == ROOT || exists k | k in t :: l < k then Err(Busy)
    else
      LeafRemovalKeepsValid(t, l);
      Ok(t - {l})
  }

  // ---------------------------------------------------------------------------------------------
  // mount --move
  // ---------------------------------------------------------------------------------------------

  /** Where a mount at `k` ends up when the mount at `a` is moved to `b`. */
  function Shift(a: Loc, b: Loc, k: Loc): (r: Loc) {
    if a <= k then b + k[|a|..] else k
  }

  lemma ShiftBack(a: Loc, b: Loc, k: Loc)
    requires !(b <= k)
    ensures Shift(b, a, Shift(a, b, k)) == k
    ensures a <= k ==> b <= Shift(a, b, k) && Shift(a, b, k)[|b|..] == k[|a|..]
  {
    if a <= k {
      assert (b + k[|a|..])[|b|..] == k[|a|..];
      assert a + k[|a|..] == k;
    }
  }

  /** The subtree at `a` moves to `b`, which must be vacant. */
  function Relocate(t: RawTable, a: Loc, b: Loc): (r: RawTable)
    requires Vacant(t, b)
  {
    assert forall k, k' | k in t && k' in t && Shift(a, b, k) == Shift(a, b, k') :: k == k' by {
      forall k, k' | k in t && k' in t && Shift(a, b, k) == Shift(a, b, k')
        ensures k == k'
      {
        ShiftBack(a, b, k);
        ShiftBack(a, b, k');
      }
    }
    map k | k in t :: Shift(a, b, k) := t[k]
  }

  lemma RelocateAt(t: RawTable, a: Loc, b: Loc, k: Loc)
    requires Vacant(t, b) && k in t
    ensures Shift(a, b, k) in Relocate(t, a, b) && Relocate(t, a, b)[Shift(a, b, k)] == t[k]
  {
    var q := Shift(a, b, k);
    var k' :| k' in t && Shift(a, b, k') == q && Relocate(t, a, b)[q] == t[k'];
    ShiftBack(a, b, k);
    ShiftBack(a, b, k');
  }

  lemma RelocateFrom(t: RawTable, a: Loc, b: Loc, q: Loc) returns (k: Loc)
    requires Vacant(t, b) && q in Relocate(t, a, b)
    ensures k in t && Shift(a, b, k) == q && Relocate(t, a, b)[q] == t[k]
  {
    k :| k in t && Shift(a, b, k) == q;
    RelocateAt(t, a, b, k);
  }

  lemma ShiftPrefix(a: Loc, b: Loc, k: Loc, n: nat)
    requires n < |Shift(a, b, k)|
    ensures a <= k && n >= |b| ==>
              var m := |a| + (n - |b|);
              m < |k| && Shift(a, b, k)[n] == k[m] && Shift(a, b, k)[..n + 1] == Shift(a, b, k[..m + 1])
    ensures a <= k && n < |b| ==> Shift(a, b, k)[..n + 1] == b[..n + 1]
    ensures !(a <= k) ==> Shift(a, b, k)[..n + 1] == Shift(a, b, k[..n + 1]) == k[..n + 1]
  {
    if a <= k && n >= |b| {
      var m := |a| + (n - |b|);
      assert k[..m + 1][|a|..] == k[|a|..][..n + 1 - |b|];
    }
  }

  lemma RelocateKeepsGround(t: RawTable, a: Loc, d: Loc, k: Loc)
    requires a in t && !(a <= d)
    requires Grounded(t, d) && Vacant(t, d + [Mnt])
    requires Grounded(t, k)
    ensures Grounded(Relocate(t, a, d + [Mnt]), Shift(a, d + [Mnt], k))
  {
    hide Relocate, Vacant;
    var b := d + [Mnt];
    var k' := Shift(a, b, k);
    forall n | 0 <= n < |k'| && k'[n] == Mnt
      ensures k'[..n + 1] in Relocate(t, a, b)
    {
      ShiftPrefix(a, b, k, n);
      if a <= k && n < |d| {
        assert b[..n + 1] == d[..n + 1] && d[n] == b[n];
        RelocateAt(t, a, b, d[..n + 1]);
      } else if a <= k && n == |d| {
        RelocateAt(t, a, b, a);
        assert b[..n + 1] == b == Shift(a, b, a);
      } else if a <= k {
        RelocateAt(t, a, b, k[..|a| + (n - |b|) + 1]);
      } else {
        RelocateAt(t, a, b, k[..n + 1]);
      }
    }
  }

  lemma RelocateKeepsValid(t: RawTable, a: Loc, d: Loc)
    requires Valid(t) && a in t && !(a <= d)
    requires Grounded(t, d) && ROOT < d && d + [Mnt] !in t && Vacant(t, d + [Mnt])
    ensures Valid(Relocate(t, a, d + [Mnt]))
  {
    hide Relocate, Vacant, Grounded;
    var b := d + [Mnt];
    assert MountLoc(a);
    RelocateAt(t, a, b, ROOT);
    forall k' | k' in Relocate(t, a, b)
      ensures MountLoc(k') && Grounded(Relocate(t, a, b), k') && k' != ROOT + [Mnt]
    {
      var k := RelocateFrom(t, a, b, k');
      assert MountLoc(k) && Grounded(t, k);
      RelocateKeepsGround(t, a, d, k);
    }
  }

  function Move(t: Table, from: Path, to: Path): (r: Result<Table>)
    requires to != []
  {
    var a := Lookup(t, from);
    var d := Lookup(t, to);
    if a !in t then Err(NotMounted)
    else if a <= d then Err(Loop)
    else
      ResolveExtends(t, [], to);
      LookupShape(t, to);
      UnmountedIsVacant(t, d);
      RelocateKeepsValid(t, a, d);
      Ok(Relocate(t, a, d + [Mnt]))
  }

  // ---------------------------------------------------------------------------------------------
  // pivot_root
  // ---------------------------------------------------------------------------------------------

  /** Where a mount at `k` ends up when the mount at `n` becomes the root and the old root goes to `put`. */
  function Swing(n: Loc, put: Loc, k: Loc): (r: Loc)
    requires n <= put
  {
    if n <= k then ROOT + k[|n|..] else ROOT + put[|n|..] + k
  }

  /** Nothing below `n` collides with the old root at its new place. */
  predicate Swingable(t: RawTable, n: Loc, put: Loc) {
    && n <= put
    && MountLoc(n)
    && Vacant(t, put + [Mnt])
    && (forall k {:trigger MountLoc(k)} | k in t :: MountLoc(k))
  }

  lemma SwingInjective(t: RawTable, n: Loc, put: Loc, k: Loc, k': Loc)
    requires Swingable(t, n, put)
    requires k in t && k' in t && Swing(n, put, k) == Swing(n, put, k')
    ensures k == k'
  {
    var q := put[|n|..];
    assert put == n + q;
    if n <= k && n <= k' {
      assert k[|n|..] == (ROOT + k[|n|..])[1..] == (ROOT + k'[|n|..])[1..] == k'[|n|..];
      assert k == n + k[|n|..] && k' == n + k'[|n|..];
    } else if n <= k {
      SwingMeets(n, put, k, k');
    } else if n <= k' {
      SwingMeets(n, put, k', k);
    } else {
      assert k == (ROOT + q + k)[1 + |q|..] && k' == (ROOT + q + k')[1 + |q|..];
    }
  }

  lemma SwingMeets(n: Loc, put: Loc, k: Loc, k': Loc)
    requires n <= put && n <= k && !(n <= k') && MountLoc(k')
    requires Swing(n, put, k) == Swing(n, put, k')
    ensures put + [Mnt] <= k
  {
    var q := put[|n|..];
    assert k[|n|..] == q + k' by {
      assert (ROOT + k[|n|..])[1..] == k[|n|..];
      assert (ROOT + q + k')[1..] == q + k';
    }
    assert k == n + (q + k');
    assert k[..|put| + 1] == put + [Mnt] by {
      assert put == n + q && k'[0] == Mnt;
    }
  }

  function Swung(t: RawTable, n: Loc, put: Loc): (r: RawTable)
    requires Swingable(t, n, put)
  {
    assert forall k, k' | k in t && k' in t && Swing(n, put, k) == Swing(n, put, k') :: k == k' by {
      forall k, k' | k in t && k' in t && Swing(n, put, k) == Swing(n, put, k')
        ensures k == k'
      {
        SwingInjective(t, n, put, k, k');
      }
    }
    map k | k in t :: Swing(n, put, k) := t[k]
  }

  lemma SwungAt(t: RawTable, n: Loc, put: Loc, k: Loc)
    requires Swingable(t, n, put) && k in t
    ensures Swing(n, put, k) in Swung(t, n, put) && Swung(t, n, put)[Swing(n, put, k)] == t[k]
  {
    var q := Swing(n, put, k);
    var k' :| k' in t && Swing(n, put, k') == q && Swung(t, n, put)[q] == t[k'];
    SwingInjective(t, n, put, k, k');
  }

  lemma SwungFrom(t: RawTable, n: Loc, put: Loc, q: Loc) returns (k: Loc)
    requires Swingable(t, n, put) && q in Swung(t, n, put)
    ensures k in t && Swing(n, put, k) == q && Swung(t, n, put)[q] == t[k]
  {
    k :| k in t && Swing(n, put, k) == q;
    SwungAt(t, n, put, k);
  }

  lemma SwingGroundsNew(t: RawTable, n: Loc, put: Loc, k: Loc)
    requires n <= put && Swingable(t, n, put) && n in t && Grounded(t, k) && n <= k
    ensures Grounded(Swung(t, n, put), Swing(n, put, k))
  {
    hide Swung, Swingable;
    var k' := Swing(n, put, k);
    forall m | 0 <= m < |k'| && k'[m] == Mnt
      ensures k'[..m + 1] in Swung(t, n, put)
    {
      if m == 0 {
        SwungAt(t, n, put, n);
        assert k'[..m + 1] == Swing(n, put, n);
      } else {
        var i := |n| + m - 1;
        assert k[i] == k[|n|..][m - 1] == k'[m];
        var pre := k[..i + 1];
        assert pre in t && n <= pre && pre[|n|..] == k[|n|..][..m];
        SwungAt(t, n, put, pre);
        assert k'[..m + 1] == Swing(n, put, pre);
      }
    }
  }

  lemma SwingGroundsOld(t: RawTable, n: Loc, put: Loc, k: Loc)
    requires Swingable(t, n, put) && n in t && Grounded(t, k) && !(n <= k)
    requires n <= put && Grounded(t, put)
    ensures Grounded(Swung(t, n, put), Swing(n, put, k))
  {
    hide Swung, Swingable;
    SwingGroundsNew(t, n, put, put);
    var k', p' := Swing(n, put, k), Swing(n, put, put);
    assert k' == p' + k;
    forall m | 0 <= m < |k'| && k'[m] == Mnt
      ensures k'[..m + 1] in Swung(t, n, put)
    {
      if m < |p'| {
        assert k'[..m + 1] == p'[..m + 1] && p'[m] == Mnt;
      } else {
        var pre := k[..m - |p'| + 1];
        assert k[m - |p'|] == k'[m];
        assert pre in t && !(n <= pre);
        SwungAt(t, n, put, pre);
        assert k'[..m + 1] == p' + pre == Swing(n, put, pre);
      }
    }
  }

  lemma SwungKeepsValid(t: RawTable, n: Loc, put: Loc)
    requires Valid(t) && n in t && n < put && n + [Mnt] !in t
    requires Grounded(t, put) && Swingable(t, n, put)
    ensures Valid(Swung(t, n, put))
  {
    hide Swung, Grounded;
    SwungAt(t, n, put, n);
    assert Swing(n, put, n) == ROOT;
    forall k' | k' in Swung(t, n, put)
      ensures MountLoc(k') && Grounded(Swung(t, n, put), k') && k' != ROOT + [Mnt]
    {
      var k := SwungFrom(t, n, put, k');
      assert MountLoc(k) && Grounded(t, k);
      if n <= k {
        assert k == n + k[|n|..];
        assert k != n + [Mnt];
        SwingGroundsNew(t, n, put, k);
      } else {
        SwingGroundsOld(t, n, put, k);
      }
    }
  }

  /** The `pivot_root . .` idiom, with both arguments the same place, is not used here: `NotBelow`. */
  function PivotRoot(t: Table, newRoot: Path, putOld: Path): (r: Result<Table>) {
    var n := Lookup(t, newRoot);
    var put := Lookup(t, putOld);
    if n !in t then Err(NotMounted)
    else if n == ROOT then Err(Busy)
    else if !(n < put) then Err(NotBelow)
    else
      ResolveExtends(t, [], putOld);
      ResolveExtends(t, [], newRoot);
      UnmountedIsVacant(t, put);
      SwungKeepsValid(t, n, put);
      Ok(Swung(t, n, put))
  }
}
