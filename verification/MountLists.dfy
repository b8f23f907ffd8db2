/**
 Mounting a list of file systems in sorted order and unmounting it in reverse, as `build` and `destroy`
 do for a zone and `setup_chroot` and `teardown_chroot` do for a chroot.
 */
module MountLists {
  import opened MountTable
  import opened MountPaths

  /**
   One mount to make.  The zone's come from the lines of `/proc/mounts` with the device replaced by
   `none`; the chroot's come from a fixed table and use the path for the device.
   */
  datatype Entry = Entry(device: string, path: Path, kind: string, options: string)

  // ---------------------------------------------------------------------------------------------
  // The order of the lines
  // ---------------------------------------------------------------------------------------------

  predicate PlainName(n: Name) {
    n != [] && '/' !in n
  }

  predicate PlainPath(p: Path) {
    p != [] && forall n | n in p :: PlainName(n)
  }

  /** The path as it is written: every component after a slash. */
  function Text(p: Path): string {
    if p == [] then "" else "/" + p[0] + Text(p[1..])
  }

  /** Python's order on strings. */
  predicate TextLeq(a: string, b: string) {
    a == [] || (b != [] && (a[0] < b[0] || (a[0] == b[0] && TextLeq(a[1..], b[1..]))))
  }

  predicate Sorted(es: seq<Entry>) {
    forall i, j | 0 <= i < j < |es| :: TextLeq(Text(es[i].path), Text(es[j].path))
  }

  lemma {:induction false} TextLeqAntisymmetric(a: string, b: string)
    requires TextLeq(a, b) && TextLeq(b, a)
    ensures a == b
    decreases |a|
  {
    if a != [] {
      TextLeqAntisymmetric(a[1..], b[1..]);
      assert a == [a[0]] + a[1..] && b == [b[0]] + b[1..];
    }
  }

  lemma {:induction false} TextLeqExtension(a: string, x: string)
    ensures TextLeq(a, a + x)
    decreases |a|
  {
    if a != [] {
      assert (a + x)[1..] == a[1..] + x;
      TextLeqExtension(a[1..], x);
    }
  }

  lemma {:induction false} TextAppend(p: Path, q: Path)
    ensures Text(p + q) == Text(p) + Text(q)
    decreases |p|
  {
    if p == [] {
      assert p + q == q;
    } else {
      assert (p + q)[1..] == p[1..] + q;
      TextAppend(p[1..], q);
    }
  }

  /** What comes before the first slash. */
  function FirstPart(s: string): string {
    if s == [] || s[0] == '/' then [] else [s[0]] + FirstPart(s[1..])
  }

  lemma {:induction false} FirstPartIs(a: string, x: string)
    requires '/' !in a
    requires x == [] || x[0] == '/'
    ensures FirstPart(a + x) == a
    decreases |a|
  {
    if a == [] {
      assert a + x == x;
    } else {
      assert (a + x)[1..] == a[1..] + x;
      FirstPartIs(a[1..], x);
    }
  }

  lemma SlashEnds(a: string, b: string, x: string, y: string)
    requires '/' !in a && '/' !in b
    requires x == [] || x[0] == '/'
    requires y == [] || y[0] == '/'
    requires a + x == b + y
    ensures a == b && x == y
  {
    FirstPartIs(a, x);
    FirstPartIs(b, y);
    assert x == (a + x)[|a|..] && y == (b + y)[|b|..];
  }

  lemma TextHead(p: Path)
    ensures Text(p) == [] <==> p == []
    ensures p != [] ==> Text(p)[0] == '/'
  {
  }

  lemma {:induction false} TextInjective(p: Path, q: Path)
    requires forall n | n in p :: PlainName(n)
    requires forall n | n in q :: PlainName(n)
    requires Text(p) == Text(q)
    ensures p == q
    decreases |p|
  {
    TextHead(p);
    TextHead(q);
    if p != [] {
      assert Text(p)[1..] == p[0] + Text(p[1..]);
      assert Text(q)[1..] == q[0] + Text(q[1..]);
      TextHead(p[1..]);
      TextHead(q[1..]);
      assert PlainName(p[0]) && PlainName(q[0]);
      SlashEnds(p[0], q[0], Text(p[1..]), Text(q[1..]));
      TextInjective(p[1..], q[1..]);
      assert p == [p[0]] + p[1..] && q == [q[0]] + q[1..];
    }
  }

  /** In a sorted list, a path never comes after a path below it. */
  lemma SortedParentsFirst(es: seq<Entry>, i: nat, j: nat)
    requires Sorted(es) && i < j < |es|
    requires PlainPath(es[i].path) && PlainPath(es[j].path)
    ensures es[j].path <= es[i].path ==> es[j].path == es[i].path
  {
    var p, q := es[j].path, es[i].path;
    if p <= q {
      assert q == p + q[|p|..];
      TextAppend(p, q[|p|..]);
      TextLeqExtension(Text(p), Text(q[|p|..]));
      TextLeqAntisymmetric(Text(p), Text(q));
      TextInjective(p, q);
    }
  }

  /** In a sorted list, equal paths are next to each other. */
  lemma SortedGroups(es: seq<Entry>, i: nat, l: nat, j: nat)
    requires Sorted(es) && i <= l <= j < |es|
    requires PlainPath(es[i].path) && PlainPath(es[l].path)
    requires es[i].path == es[j].path
    ensures es[l].path == es[i].path
  {
    if i < l && l < j {
      TextLeqAntisymmetric(Text(es[i].path), Text(es[l].path));
      TextInjective(es[i].path, es[l].path);
    }
  }

  // ---------------------------------------------------------------------------------------------
  // The names on the way to a place
  // ---------------------------------------------------------------------------------------------

  function Names(l: Loc): Path {
    if l == [] then []
    else
      var init := Names(l[..|l| - 1]);
      match l[|l| - 1]
      case Dir(n) => init + [n]
      case Mnt => init
  }

  lemma {:induction false} NamesAppend(a: Loc, b: Loc)
    ensures Names(a + b) == Names(a) + Names(b)
    decreases |b|
  {
    if b == [] {
      assert a + b == a;
    } else {
      assert (a + b)[..|a + b| - 1] == a + b[..|b| - 1];
      NamesAppend(a, b[..|b| - 1]);
    }
  }

  lemma {:induction false} NamesOfTop(t: RawTable, l: Loc)
    ensures Names(Top(t, l)) == Names(l)
    decreases |Above(t, l)|
  {
    if l + [Mnt] in t {
      AboveShrinks(t, l);
      NamesOfTop(t, l + [Mnt]);
      assert (l + [Mnt])[..|l|] == l;
    }
  }

  /** A path resolves to a place with that path's names. */
  lemma {:induction false} NamesOfResolve(t: RawTable, l: Loc, p: Path)
    ensures Names(Resolve(t, l, p)) == Names(l) + p
    decreases p
  {
    NamesOfTop(t, l);
    if p != [] {
      var m := Top(t, l);
      assert (m + [Dir(p[0])])[..|m|] == m;
      NamesOfResolve(t, m + [Dir(p[0])], p[1..]);
      assert Names(l) + p == Names(l) + [p[0]] + p[1..];
    }
  }

  lemma NamesOfLookup(t: RawTable, p: Path)
    ensures Names(Lookup(t, p)) == p
    ensures Names(Lookup(t, p) + [Mnt]) == p
  {
    NamesOfResolve(t, [], p);
    var l := Lookup(t, p);
    assert (l + [Mnt])[..|l|] == l;
  }

  lemma NamesOfPrefix(a: Loc, k: Loc)
    requires a <= k
    ensures Names(a) <= Names(k)
  {
    assert k == a + k[|a|..];
    NamesAppend(a, k[|a|..]);
  }

  // ---------------------------------------------------------------------------------------------
  // The two loops
  // ---------------------------------------------------------------------------------------------

  predicate Skipped(e: Entry) {
    e.kind == "autofs"
  }

  /** Mount every entry below `base`, from the first to the last; automount points are left out. */
  function MountAll(t: Table, base: Path, es: seq<Entry>): Table
    requires forall e | e in es :: e.path != []
    decreases |es|
  {
    if es == [] then t
    else
      var e := es[|es| - 1];
      var t' := MountAll(t, base, es[..|es| - 1]);
      if Skipped(e) then t' else Attach(t', base + e.path, Fs(e.device, e.kind))
  }

  /** Unmount what is mounted below `base`, from the last entry to the first. */
  function UnmountAll(t: Table, base: Path, es: seq<Entry>): Result<Table>
    decreases |es|
  {
    if es == [] then Ok(t)
    else
      var p := base + es[|es| - 1].path;
      if !IsMount(t, p) then UnmountAll(t, base, es[..|es| - 1])
      else
        match Unmount(t, p)
        case Ok(t') => UnmountAll(t', base, es[..|es| - 1])
        case Err(e) => Err(e)
  }

  /** The mounts that the same loop leaves when an `umount` in it fails, and at its end when none does. */
  function UnmountAllLeaves(t: Table, base: Path, es: seq<Entry>): Table
    decreases |es|
  {
    if es == [] then t
    else
      var p := base + es[|es| - 1].path;
      if !IsMount(t, p) then UnmountAllLeaves(t, base, es[..|es| - 1])
      else
        match Unmount(t, p)
        case Ok(t') => UnmountAllLeaves(t', base, es[..|es| - 1])
        case Err(e) => t
  }

  // ---------------------------------------------------------------------------------------------
  // Two readings of the same mounts
  // ---------------------------------------------------------------------------------------------

  function PathsOf(es: seq<Entry>): (ps: seq<Path>)
    ensures |ps| == |es| && forall i :: 0 <= i < |es| ==> ps[i] == es[i].path
  {
    seq(|es|, i requires 0 <= i < |es| => es[i].path)
  }

  predicate SortedPaths(ps: seq<Path>) {
    forall i, j | 0 <= i < j < |ps| :: TextLeq(Text(ps[i]), Text(ps[j]))
  }

  function Without<T>(s: seq<T>, j: nat): (r: seq<T>)
    requires j < |s|
    ensures |r| == |s| - 1
  {
    s[..j] + s[j + 1..]
  }

  lemma CountWithout<T>(s: seq<T>, j: nat)
    requires j < |s|
    ensures multiset(Without(s, j)) == multiset(s) - multiset{s[j]}
  {
    assert s == s[..j] + [s[j]] + s[j + 1..];
  }

  lemma PathsWithout(es: seq<Entry>, j: nat)
    requires j < |es|
    ensures PathsOf(Without(es, j)) == Without(PathsOf(es), j)
  {
  }

  lemma {:induction false} SamePathCounts(a: seq<Entry>, b: seq<Entry>)
    requires multiset(a) == multiset(b)
    ensures multiset(PathsOf(a)) == multiset(PathsOf(b))
    decreases |a|
  {
    SameLength(a, b);
    if a == [] {
      assert PathsOf(a) == PathsOf(b);
    } else {
      hide PathsOf, Without;
      assert a[0] in multiset(a);
      var j :| 0 <= j < |b| && b[j] == a[0];
      CountWithout(a, 0);
      CountWithout(b, j);
      SamePathCounts(Without(a, 0), Without(b, j));
      PathsWithout(a, 0);
      PathsWithout(b, j);
      CountWithout(PathsOf(a), 0);
      CountWithout(PathsOf(b), j);
      CountsAddBack(PathsOf(a), PathsOf(b), a[0].path);
    }
  }

  lemma CountsAddBack(p: seq<Path>, q: seq<Path>, x: Path)
    requires x in p && x in q && multiset(p) - multiset{x} == multiset(q) - multiset{x}
    ensures multiset(p) == multiset(q)
  {
    assert multiset(p) == multiset(p) - multiset{x} + multiset{x};
    assert multiset(q) == multiset(q) - multiset{x} + multiset{x};
  }

  lemma LastIsSame(p: seq<Path>, q: seq<Path>)
    requires SortedPaths(p) && SortedPaths(q) && multiset(p) == multiset(q) && |p| == |q| > 0
    requires forall x | x in p :: PlainPath(x)
    ensures p[|p| - 1] == q[|q| - 1]
  {
    hide PlainPath, TextLeq, Text;
    var n := |p| - 1;
    assert p[n] in multiset(q) && q[n] in multiset(p);
    var i, j :| 0 <= i <= n && 0 <= j <= n && p[i] == q[n] && q[j] == p[n];
    if i < n && j < n {
      TextLeqAntisymmetric(Text(p[n]), Text(q[n]));
      PlainPathsDiffer(p[n], q[n]);
    }
  }

  lemma PlainPathsDiffer(p: Path, q: Path)
    requires PlainPath(p) && PlainPath(q) && Text(p) == Text(q)
    ensures p == q
  {
    TextInjective(p, q);
  }

  /** A sorted list of paths is determined by how often each path occurs. */
  lemma {:induction false} SortedIsUnique(p: seq<Path>, q: seq<Path>)
    requires SortedPaths(p) && SortedPaths(q) && multiset(p) == multiset(q)
    requires forall x | x in p :: PlainPath(x)
    ensures p == q
    decreases |p|
  {
    hide PlainPath, TextLeq, Text, SortedPaths;
    SameLength(p, q);
    if p != [] {
      var n := |p| - 1;
      LastIsSame(p, q);
      InitOfSorted(p);
      InitOfSorted(q);
      SortedIsUnique(p[..n], q[..n]);
    }
  }

  lemma SameLength<T>(p: seq<T>, q: seq<T>)
    requires multiset(p) == multiset(q)
    ensures |p| == |q|
  {
    assert |p| == |multiset(p)| == |multiset(q)| == |q|;
  }

  /** All paths but the last, and the last. */
  lemma InitOfSorted(p: seq<Path>)
    requires SortedPaths(p) && p != []
    ensures var n := |p| - 1;
      && SortedPaths(p[..n]) && multiset(p[..n]) == multiset(p) - multiset{p[n]}
      && p == p[..n] + [p[n]]
  {
    hide TextLeq, Text;
    var n := |p| - 1;
    CountWithout(p, n);
    assert Without(p, n) == p[..n];
    assert p == p[..n] + [p[n]];
  }

  lemma {:induction false} UnmountAllByPaths(t: Table, base: Path, a: seq<Entry>, b: seq<Entry>)
    requires PathsOf(a) == PathsOf(b)
    ensures UnmountAll(t, base, a) == UnmountAll(t, base, b)
    decreases |a|
  {
    hide Unmount, IsMount, Lookup, Valid;
    if a != [] {
      var n := |a| - 1;
      assert PathsOf(a)[n] == PathsOf(b)[n];
      assert PathsOf(a[..n]) == PathsOf(a)[..n] == PathsOf(b[..n]);
      var p := base + a[n].path;
      if !IsMount(t, p) {
        UnmountAllByPaths(t, base, a[..n], b[..n]);
      } else if Unmount(t, p).Ok? {
        UnmountAllByPaths(Unmount(t, p).value, base, a[..n], b[..n]);
      }
    }
  }

  /** Two sorted lists of the same mounts are unmounted alike, however lines for one directory are ordered. */
  lemma SameMountsUnmountAlike(t: Table, base: Path, a: seq<Entry>, b: seq<Entry>)
    requires Sorted(a) && Sorted(b) && multiset(a) == multiset(b)
    requires forall e | e in a :: PlainPath(e.path)
    ensures UnmountAll(t, base, a) == UnmountAll(t, base, b)
  {
    hide UnmountAll, PlainPath;
    SamePathCounts(a, b);
    forall x | x in PathsOf(a)
      ensures PlainPath(x)
    {
      var i :| 0 <= i < |PathsOf(a)| && PathsOf(a)[i] == x;
      assert a[i] in a;
    }
    SortedIsUnique(PathsOf(a), PathsOf(b));
    UnmountAllByPaths(t, base, a, b);
  }

  /** The entries can be mounted below a mounted `base` on which nothing is mounted yet. */
  ghost predicate Mountable(t: Table, base: Path, es: seq<Entry>) {
    && IsMount(t, base)
    && (forall k | k in t :: !(Lookup(t, base) < k))
    && (forall e | e in es :: PlainPath(e.path))
    && Sorted(es)
  }

  /** Everything below `base` was mounted for one of the entries. */
  lemma {:induction false} MountedEntries(t: Table, base: Path, es: seq<Entry>)
    requires Mountable(t, base, es)
    ensures var m := MountAll(t, base, es);
            && Lookup(m, base) == Lookup(t, base) && IsMount(m, base)
            && (forall k | k in t :: k in m && m[k] == t[k])
            && (forall k | k in m && k !in t :: Lookup(t, base) < k)
            && (forall k | k in m && Lookup(t, base) < k ::
                  exists e :: e in es && !Skipped(e) && Names(k) == base + e.path)
    decreases |es|
  {
    hide Lookup, Attach, Valid, Grounded, Sorted, PlainPath;
    if es != [] {
      var e, init := es[|es| - 1], es[..|es| - 1];
      MountableInit(t, base, es);
      MountedEntries(t, base, init);
      MountablePaths(t, base, es);
      if !Skipped(e) {
        AttachBelow(MountAll(t, base, init), base, e.path, Fs(e.device, e.kind));
      }
    }
  }

  lemma MountablePaths(t: Table, base: Path, es: seq<Entry>)
    requires Mountable(t, base, es)
    ensures forall e | e in es :: e.path != []
    ensures forall i | 0 <= i < |es| :: PlainPath(es[i].path)
  {
  }

  lemma MountableInit(t: Table, base: Path, es: seq<Entry>)
    requires Mountable(t, base, es) && es != []
    ensures Mountable(t, base, es[..|es| - 1])
  {
  }

  lemma AttachBelow(t: Table, base: Path, p: Path, fs: Fs)
    requires IsMount(t, base) && p != []
    ensures var k := Lookup(t, base + p) + [Mnt];
            && Attach(t, base + p, fs) == t[k := fs] && k !in t
            && Lookup(Attach(t, base + p, fs), base) == Lookup(t, base)
            && Lookup(t, base) < k && Names(k) == base + p
  {
    hide Valid, Grounded, Resolve;
    var d, k := Lookup(t, base + p), Lookup(t, base + p) + [Mnt];
    NamesOfLookup(t, base + p);
    NamesOfLookup(t, base);
    ResolveCompose(t, [], base, p);
    ResolveExtends(t, Lookup(t, base), p);
    ResolveExtends(t, [], base + p);
    var r := Lookup(t, base);
    forall n | 0 <= n <= |r|
      ensures (r[..n] + [Mnt] in t) <==> (r[..n] + [Mnt] in t[k := fs])
    {
      if r[..n] + [Mnt] == k {
        assert r[..n] == k[..|k| - 1] == d;
        NamesOfPrefix(r[..n], r);
      }
    }
    SameLookup(t, t[k := fs], base);
  }

  // ---------------------------------------------------------------------------------------------
  // Mounting never hides a mount
  // ---------------------------------------------------------------------------------------------

  /** When its turn comes, nothing is mounted below the place where an entry is mounted. */
  lemma MountingNeverCovers(t: Table, base: Path, es: seq<Entry>, j: nat)
    requires Mountable(t, base, es) && j < |es|
    ensures forall e | e in es[..j] :: e.path != []
    ensures forall k | k in MountAll(t, base, es[..j]) :: !(Lookup(MountAll(t, base, es[..j]), base + es[j].path) < k)
  {
    hide Attach, Valid, Grounded, Resolve, MountAll;
    MountablePaths(t, base, es);
    MountablePrefix(t, base, es, j);
    var m, p := MountAll(t, base, es[..j]), es[j].path;
    var d := Lookup(m, base + p);
    MountedEntries(t, base, es[..j]);
    NamesOfLookup(m, base + p);
    AttachBelow(m, base, p, Fs("none", "none"));
    forall k | k in m
      ensures !(d < k)
    {
      CoverersAreHigher(m, t, base, es, j, k);
    }
  }

  lemma MountablePrefix(t: Table, base: Path, es: seq<Entry>, j: nat)
    requires Mountable(t, base, es) && j <= |es|
    ensures Mountable(t, base, es[..j])
  {
  }

  /** A mount below the place of an entry would have to be stacked on that very place. */
  lemma CoverersAreHigher(m: Table, t: Table, base: Path, es: seq<Entry>, j: nat, k: Loc)
    requires Mountable(t, base, es) && j < |es|
    requires Mountable(t, base, es[..j]) && m == MountAll(t, base, es[..j])
    requires k in m && Lookup(t, base) <= Lookup(m, base + es[j].path)
    ensures Lookup(m, base + es[j].path) < k ==> Lookup(m, base + es[j].path) + [Mnt] in m
  {
    hide Attach, Resolve, MountAll, Lookup, Mountable, Sorted, Valid;
    MountablePaths(t, base, es);
    MountedEntries(t, base, es[..j]);
    var d := Lookup(m, base + es[j].path);
    if d < k {
      PrefixLeft(Lookup(t, base), d[|Lookup(t, base)|..], k);
      PrefixTail(Lookup(t, base), d);
      var e :| e in es[..j] && !Skipped(e) && Names(k) == base + e.path;
      var i :| 0 <= i < j && es[i] == e;
      SameEntryPath(t, m, base, es, i, j, k);
      SameNamesStacked(d, k);
      StackedIsMounted(m, d, k);
    }
  }

  lemma StackedIsMounted(m: RawTable, d: Loc, k: Loc)
    requires Valid(m) && k in m && d < k && k[|d|] == Mnt
    ensures d + [Mnt] in m
  {
    assert Grounded(m, k);
    assert k[..|d| + 1] == d + [Mnt];
  }

  lemma SameEntryPath(t: Table, m: Table, base: Path, es: seq<Entry>, i: nat, j: nat, k: Loc)
    requires Mountable(t, base, es) && i < j < |es|
    requires Lookup(m, base + es[j].path) < k && Names(k) == base + es[i].path
    ensures Names(k) == Names(Lookup(m, base + es[j].path))
  {
    hide Resolve, Lookup, Mountable, Sorted, Valid;
    MountablePaths(t, base, es);
    MountableSorted(t, base, es);
    var p, q := es[j].path, es[i].path;
    NamesOfLookup(m, base + p);
    NamesOfPrefix(Lookup(m, base + p), k);
    assert p <= q by {
      assert (base + q)[|base|..] == q && (base + p)[|base|..] == p;
    }
    SortedParentsFirst(es, i, j);
  }

  lemma MountableSorted(t: Table, base: Path, es: seq<Entry>)
    requires Mountable(t, base, es)
    ensures Sorted(es)
  {
  }

  /** Two places with the same names, one above the other, differ by mounts only. */
  lemma SameNamesStacked(d: Loc, k: Loc)
    requires d < k && Names(d) == Names(k)
    ensures k[|d|] == Mnt
  {
    var x := k[|d|..];
    assert k == d + x;
    NamesAppend(d, x);
    assert x == [x[0]] + x[1..];
    NamesAppend([x[0]], x[1..]);
    assert |Names(x)| == 0;
    NamesOfStep(x[0]);
  }

  lemma NamesOfStep(s: Step)
    ensures |Names([s])| == if s.Dir? then 1 else 0
  {
    assert [s][..0] == [];
  }

  // ---------------------------------------------------------------------------------------------
  // Unmounting in reverse
  // ---------------------------------------------------------------------------------------------

  /** The last entry that was really mounted. */
  function LastMounted(es: seq<Entry>): (n: nat)
    ensures n <= |es|
    ensures n > 0 ==> !Skipped(es[n - 1])
    ensures forall i | n <= i < |es| :: Skipped(es[i])
  {
    if es == [] then 0
    else if !Skipped(es[|es| - 1]) then |es|
    else LastMounted(es[..|es| - 1])
  }

  lemma {:induction false} SkippedTail(t: Table, base: Path, es: seq<Entry>)
    requires forall e | e in es :: e.path != []
    ensures MountAll(t, base, es) == MountAll(t, base, es[..LastMounted(es)])
    decreases |es|
  {
    if es == [] || !Skipped(es[|es| - 1]) {
      assert es[..|es|] == es;
    } else {
      var init := es[..|es| - 1];
      SkippedTail(t, base, init);
      assert init[..LastMounted(init)] == es[..LastMounted(init)];
    }
  }

  lemma UnmountLast(t: Table, base: Path, es: seq<Entry>)
    requires forall e | e in es :: e.path != []
    requires es != [] && !Skipped(es[|es| - 1])
    ensures Unmount(MountAll(t, base, es), base + es[|es| - 1].path) == Ok(MountAll(t, base, es[..|es| - 1]))
  {
    hide Attach, Unmount, Lookup, Valid;
    var e, init := es[|es| - 1], es[..|es| - 1];
    var q := base + e.path[..|e.path| - 1];
    assert base + e.path == q + [e.path[|e.path| - 1]];
    UnmountUndoesAttach(MountAll(t, base, init), q, e.path[|e.path| - 1], Fs(e.device, e.kind));
  }

  lemma IsMountedBy(t: Table, base: Path, es: seq<Entry>, p: Path) returns (i: nat)
    requires Mountable(t, base, es) && p != []
    requires forall e | e in es :: e.path != []
    requires IsMount(MountAll(t, base, es), base + p)
    ensures i < |es| && !Skipped(es[i]) && es[i].path == p
  {
    hide Attach, Resolve, MountAll, Mountable, Sorted, Valid, Grounded;
    var m := MountAll(t, base, es);
    MountedEntries(t, base, es);
    AttachBelow(m, base, p, Fs("none", "none"));
    var k := Lookup(m, base + p);
    ResolveCompose(m, [], base, p);
    ResolveExtends(m, Lookup(m, base), p);
    ResolveExtends(m, [], base);
    NamesOfLookup(m, base + p);
    assert Top(m, Lookup(m, base)) == Lookup(m, base);
    assert Lookup(t, base) < k;
    var e :| e in es && !Skipped(e) && Names(k) == base + e.path;
    assert (base + e.path)[|base|..] == e.path && (base + p)[|base|..] == p;
    i :| 0 <= i < |es| && es[i] == e;
  }

  /**
   From the state with the first `m` entries mounted, going back through the first `j` entries unmounts
   everything, provided that the entries between belong to the group that is being unmounted.
   */
  lemma {:induction false} UnmountFrom(t: Table, base: Path, es: seq<Entry>, m: nat, j: nat)
    requires Mountable(t, base, es) && m <= j <= |es|
    ensures forall e | e in es[..m] :: e.path != []
    ensures UnmountAll(MountAll(t, base, es[..m]), base, es[..j]) == Ok(t)
    decreases j
  {
    hide Attach, Lookup, Valid, Unmount, Sorted, IsMount, Mountable, PlainPath, Skipped;
    MountablePaths(t, base, es);
    MountablePrefix(t, base, es, m);
    if j == 0 {
      assert es[..m] == [];
      assert MountAll(t, base, es[..m]) == t;
    } else {
      var e := es[j - 1];
      var s := MountAll(t, base, es[..m]);
      assert es[..j][..j - 1] == es[..j - 1];
      if IsMount(s, base + e.path) {
        var l := GroupTop(t, base, es, m, j);
        UnmountFrom(t, base, es, l, j - 1);
      } else if m == j {
        LastIsMount(t, base, es[..j]);
        UnmountFrom(t, base, es, j - 1, j - 1);
      } else {
        UnmountFrom(t, base, es, m, j - 1);
      }
    }
  }

  /** An entry that is not mounted right after its turn was skipped. */
  lemma LastIsMount(t: Table, base: Path, es: seq<Entry>)
    requires forall e | e in es :: e.path != []
    requires es != [] && !IsMount(MountAll(t, base, es), base + es[|es| - 1].path)
    ensures MountAll(t, base, es) == MountAll(t, base, es[..|es| - 1])
  {
    hide Lookup, Valid, Unmount;
    if !Skipped(es[|es| - 1]) {
      UnmountLast(t, base, es);
      MountedIfUnmounted(MountAll(t, base, es), base + es[|es| - 1].path);
    }
  }

  lemma MountedIfUnmounted(t: Table, p: Path)
    ensures Unmount(t, p).Ok? ==> IsMount(t, p)
  {
  }

  /** A path that is mounted was mounted last of all, so unmounting it undoes the last mount. */
  lemma GroupTop(t: Table, base: Path, es: seq<Entry>, m: nat, j: nat) returns (l: nat)
    requires Mountable(t, base, es) && m <= j <= |es| && j > 0
    requires forall e | e in es :: e.path != []
    requires IsMount(MountAll(t, base, es[..m]), base + es[j - 1].path)
    ensures l < m
    ensures Unmount(MountAll(t, base, es[..m]), base + es[j - 1].path) == Ok(MountAll(t, base, es[..l]))
  {
    hide Attach, Lookup, Valid, Unmount, MountAll, IsMount, Mountable;
    MountablePaths(t, base, es);
    MountablePrefix(t, base, es, m);
    MountableSorted(t, base, es);
    var p := es[j - 1].path;
    var i := IsMountedBy(t, base, es[..m], p);
    var n := LastMounted(es[..m]);
    SkippedTail(t, base, es[..m]);
    assert es[..m][..n] == es[..n];
    assert i < n;
    SortedGroups(es, i, n - 1, j - 1);
    assert es[..n][n - 1] == es[n - 1] && es[..n][..n - 1] == es[..n - 1];
    UnmountLast(t, base, es[..n]);
    l := n - 1;
  }

  /**
   Unmounting in reverse meets no mount with mounts below it and restores the table, automount points
   and stacked mounts included.
   */
  lemma UnmountUndoesMount(t: Table, base: Path, es: seq<Entry>)
    requires Mountable(t, base, es)
    ensures forall e | e in es :: e.path != []
    ensures UnmountAll(MountAll(t, base, es), base, es) == Ok(t)
  {
    MountablePaths(t, base, es);
    assert es[..|es|] == es;
    UnmountFrom(t, base, es, |es|, |es|);
  }

  // ---------------------------------------------------------------------------------------------
  // The chroot
  // ---------------------------------------------------------------------------------------------

  /** The `umount`s of `teardown_chroot`, every one of them checked. */
  function Teardown(t: Table, root: Path, es: seq<Entry>): Result<Table>
    decreases |es|
  {
    if es == [] then Ok(t)
    else
      match Unmount(t, root + es[|es| - 1].path)
      case Ok(t') => Teardown(t', root, es[..|es| - 1])
      case Err(e) => Err(e)
  }

  /** `teardown_chroot` never fails after `setup_chroot` and gives the table back. */
  lemma {:induction false} TeardownUndoesSetup(t: Table, root: Path, es: seq<Entry>)
    requires forall e | e in es :: e.path != [] && !Skipped(e)
    ensures Teardown(MountAll(t, root, es), root, es) == Ok(t)
    decreases |es|
  {
    hide Attach, Unmount, Valid;
    if es != [] {
      UnmountLast(t, root, es);
      TeardownUndoesSetup(t, root, es[..|es| - 1]);
    }
  }
}
