/** The manifest of the EFI system partition: what it records of a directory tree, and what it tells apart. */
module EspManifest {
  import opened Core

  type Name = string
  type Contents = seq<bv8>
  type Digest = string
  type Manifest = map<string, Option<Digest>>

  datatype Tree = File(contents: Contents) | Dir(entries: map<Name, Tree>)

  const SEPARATOR: char := '/'

  /** A name as a file system allows it. */
  predicate ValidName(n: Name) {
    n != "" && SEPARATOR !in n
  }

  ghost predicate Valid(t: Tree) {
    t.Dir? ==> forall n :: n in t.entries ==> ValidName(n) && Valid(t.entries[n])
  }

  // ---------------------------------------------------------------------------------------------
  // Paths
  // ---------------------------------------------------------------------------------------------

  /** The paths of all files and directories, that of the tree itself being empty. */
  function Paths(t: Tree): (paths: set<seq<Name>>)
    ensures [] in paths
  {
    match t
    case File(_) => {[]}
    case Dir(m) => {[]} + (set n, p | n in m && p in Paths(m[n]) :: [n] + p)
  }

  function At(t: Tree, p: seq<Name>): Tree
    requires p in Paths(t)
    decreases |p|
  {
    if p == [] then t else
      assert p[1..] in Paths(t.entries[p[0]]);
      At(t.entries[p[0]], p[1..])
  }

  function Join(p: seq<Name>): string {
    if p == [] then "" else if |p| == 1 then p[0] else p[0] + [SEPARATOR] + Join(p[1..])
  }

  ghost predicate ValidPath(p: seq<Name>) {
    forall i :: 0 <= i < |p| ==> ValidName(p[i])
  }

  lemma {:induction false} PathsAreValid(t: Tree, p: seq<Name>)
    requires Valid(t) && p in Paths(t)
    ensures ValidPath(p)
    decreases |p|
  {
    if p != [] {
      PathsAreValid(t.entries[p[0]], p[1..]);
      assert forall i :: 0 < i < |p| ==> p[i] == p[1..][i - 1];
    }
  }

  /** Where the separator first comes, or the length. */
  function Cut(s: string): (n: nat)
    ensures n <= |s| && SEPARATOR !in s[..n] && (n < |s| ==> s[n] == SEPARATOR)
  {
    if s == "" || s[0] == SEPARATOR then 0 else 1 + Cut(s[1..])
  }

  lemma {:induction false} CutIs(s: string, n: nat)
    requires n <= |s| && SEPARATOR !in s[..n] && (n < |s| ==> s[n] == SEPARATOR)
    ensures Cut(s) == n
    decreases n
  {
    if n > 0 {
      assert s[0] in s[..n] && s[1..][..n - 1] == s[..n][1..];
      CutIs(s[1..], n - 1);
    }
  }

  lemma JoinStarts(p: seq<Name>)
    requires p != [] && ValidPath(p)
    ensures Join(p) != "" && Cut(Join(p)) == |p[0]| && Join(p)[..|p[0]|] == p[0]
    ensures |p| == 1 <==> |Join(p)| == |p[0]|
    ensures |p| > 1 ==> Join(p)[|p[0]| + 1..] == Join(p[1..])
  {
    assert ValidName(p[0]);
    CutIs(Join(p), |p[0]|);
  }

  /** Names without separators can be told from the joined path. */
  lemma {:induction false} JoinIsInjective(p: seq<Name>, q: seq<Name>)
    requires ValidPath(p) && ValidPath(q) && Join(p) == Join(q)
    ensures p == q
    decreases |p|
  {
    hide Join;
    JoinEmpty();
    if p != [] {
      JoinStarts(p);
    }
    if q != [] {
      JoinStarts(q);
    }
    if p != [] {
      assert p[0] == q[0];
      if |p| > 1 {
        JoinIsInjective(p[1..], q[1..]);
      }
      assert p == [p[0]] + p[1..] && q == [q[0]] + q[1..];
    }
  }

  lemma JoinEmpty()
    ensures Join([]) == ""
  {
  }

  // ---------------------------------------------------------------------------------------------
  // The manifest
  // ---------------------------------------------------------------------------------------------

  /** What is recorded of a file or directory: the digest of a file, nothing of a directory. */
  function Entry(hash: Contents -> Digest, t: Tree): Option<Digest> {
    if t.File? then Some(hash(t.contents)) else None
  }

  /** `m` records exactly what is below the directory `t`, which lies at `prefix`. */
  ghost predicate Records(hash: Contents -> Digest, prefix: seq<Name>, t: Tree, m: Manifest) {
    && (forall p :: p in Paths(t) && p != [] ==> Join(prefix + p) in m && m[Join(prefix + p)] == Entry(hash, At(t, p)))
    && (forall k :: k in m ==> exists p :: p in Paths(t) && p != [] && k == Join(prefix + p))
  }

  lemma {:induction false} SameBelow(a: Tree, b: Tree)
    requires Paths(a) == Paths(b)
    requires forall p :: p in Paths(a) ==> At(a, p).File? == At(b, p).File?
    requires forall p :: p in Paths(a) && At(a, p).File? ==> At(a, p).contents == At(b, p).contents
    ensures a == b
    decreases a
  {
    assert At(a, []) == a && At(b, []) == b;
    if a.Dir? {
      forall n
        ensures n in a.entries <==> n in b.entries
      {
        ChildPaths(a, n, []);
        ChildPaths(b, n, []);
        assert [n] + [] == [n];
      }
      forall n | n in a.entries
        ensures a.entries[n] == b.entries[n]
      {
        var c, d := a.entries[n], b.entries[n];
        forall p
          ensures p in Paths(c) <==> p in Paths(d)
          ensures p in Paths(c) ==> At(c, p).File? == At(d, p).File?
          ensures p in Paths(c) && At(c, p).File? ==> At(c, p).contents == At(d, p).contents
        {
          ChildPaths(a, n, p);
          ChildPaths(b, n, p);
        }
        SameBelow(c, d);
      }
      assert a.entries == b.entries;
    }
  }

  lemma ChildPaths(t: Tree, n: Name, p: seq<Name>)
    requires t.Dir?
    ensures [n] + p in Paths(t) <==> n in t.entries && p in Paths(t.entries[n])
    ensures [n] + p in Paths(t) ==> At(t, [n] + p) == At(t.entries[n], p)
  {
    assert ([n] + p)[0] == n && ([n] + p)[1..] == p;
  }

  ghost predicate Injective(hash: Contents -> Digest) {
    forall x, y :: hash(x) == hash(y) ==> x == y
  }

  lemma RecordedPaths(hash: Contents -> Digest, a: Tree, b: Tree, m: Manifest)
    requires Valid(a) && Valid(b) && Records(hash, [], a, m) && Records(hash, [], b, m)
    ensures Paths(a) <= Paths(b)
    ensures forall p :: p in Paths(a) && p != [] ==> Entry(hash, At(a, p)) == Entry(hash, At(b, p))
  {
    hide Join, Entry;
    forall p | p in Paths(a)
      ensures p in Paths(b)
    {
      assert [] + p == p;
      if p != [] {
        assert Join(p) in m;
        var q :| q in Paths(b) && q != [] && Join(p) == Join([] + q);
        assert [] + q == q;
        PathsAreValid(a, p);
        PathsAreValid(b, q);
        JoinIsInjective(p, q);
      }
    }
    assert forall p: seq<Name> :: [] + p == p;
  }

  /** Two directory trees of any shape have the same manifest exactly when they are the same. */
  lemma SameManifestExactly(hash: Contents -> Digest, a: Tree, b: Tree,
                                        m: Manifest, n: Manifest)
    requires Injective(hash)
    requires a.Dir? && b.Dir? && Valid(a) && Valid(b)
    requires Records(hash, [], a, m) && Records(hash, [], b, n)
    ensures m == n <==> a == b
  {
    hide Records, Paths, Join;
    if m == n {
      RecordedPaths(hash, a, b, m);
      RecordedPaths(hash, b, a, m);
      RootIs(a);
      RootIs(b);
      assert forall p :: p in Paths(a) && p != [] ==> Entry(hash, At(a, p)) == Entry(hash, At(b, p));
      SameBelow(a, b);
    }
    if a == b {
      OneManifest(hash, a, m, n);
    }
  }

  lemma RootIs(t: Tree)
    ensures At(t, []) == t
  {
  }

  lemma OneManifest(hash: Contents -> Digest, t: Tree, m: Manifest, n: Manifest)
    requires Records(hash, [], t, m) && Records(hash, [], t, n)
    ensures m == n
  {
    hide Join, Entry, At, Paths;
    assert forall k :: k in m ==> k in n && n[k] == m[k];
    assert forall k :: k in n ==> k in m;
  }

  // ---------------------------------------------------------------------------------------------
  // Capturing
  // ---------------------------------------------------------------------------------------------

  /** The part of a manifest for the entries of a directory whose names are in `names`. */
  ghost predicate RecordsSome(hash: Contents -> Digest, prefix: seq<Name>, t: Tree, names: set<Name>, m: Manifest) {
    && (forall p :: p in Paths(t) && p != [] && p[0] in names ==>
        Join(prefix + p) in m && m[Join(prefix + p)] == Entry(hash, At(t, p)))
    && (forall k :: k in m ==> exists p :: p in Paths(t) && p != [] && p[0] in names && k == Join(prefix + p))
  }

  lemma NamesOfPaths(t: Tree, p: seq<Name>)
    requires p in Paths(t) && p != []
    ensures t.Dir? && p[0] in t.entries && p[1..] in Paths(t.entries[p[0]]) && At(t, p) == At(t.entries[p[0]], p[1..])
  {
  }

  lemma Apart(prefix: seq<Name>, n: Name, p: seq<Name>, q: seq<Name>)
    requires p != []
    ensures p[0] != n || (|p| == 1 && q != []) ==> prefix + p != prefix + [n] + q
  {
    if p[0] != n {
      assert (prefix + p)[|prefix|] == p[0] && (prefix + [n] + q)[|prefix|] == n;
    } else if |p| == 1 && q != [] {
      assert |prefix + p| != |prefix + [n] + q|;
    }
  }

  lemma JoinsDiffer(p: seq<Name>, q: seq<Name>)
    requires ValidPath(p) && ValidPath(q) && p != q
    ensures Join(p) != Join(q)
  {
    if Join(p) == Join(q) {
      JoinIsInjective(p, q);
    }
  }

  /** The manifest of a subdirectory has no key of what is not in it. */
  lemma NotBelow(hash: Contents -> Digest, prefix: seq<Name>, t: Tree, n: Name, below: Manifest, p: seq<Name>)
    requires Valid(t) && ValidPath(prefix + [n]) && ValidPath(prefix + p)
    requires Records(hash, prefix + [n], t, below)
    requires p != [] && (p[0] != n || |p| == 1)
    ensures Join(prefix + p) !in below
  {
    hide Join, Entry, Paths, At;
    forall q | q in Paths(t) && q != []
      ensures Join(prefix + p) != Join(prefix + [n] + q)
    {
      PathsAreValid(t, q);
      Apart(prefix, n, p, q);
      JoinsDiffer(prefix + p, prefix + [n] + q);
    }
  }

  lemma ValidJoin(prefix: seq<Name>, t: Tree, p: seq<Name>)
    requires ValidPath(prefix) && Valid(t) && p in Paths(t)
    ensures ValidPath(prefix + p)
  {
    PathsAreValid(t, p);
  }

  lemma KeptEntry(hash: Contents -> Digest, prefix: seq<Name>, t: Tree, m: Manifest, n: Name, below: Manifest,
                  p: seq<Name>)
    requires t.Dir? && Valid(t) && ValidPath(prefix) && n in t.entries
    requires Records(hash, prefix + [n], t.entries[n], below)
    requires p in Paths(t) && p != []
    requires p[0] != n ==> Join(prefix + p) in m && m[Join(prefix + p)] == Entry(hash, At(t, p))
    ensures var r := m[Join(prefix + [n]) := Entry(hash, t.entries[n])] + below;
      Join(prefix + p) in r && r[Join(prefix + p)] == Entry(hash, At(t, p))
  {
    hide Join, Entry, Paths, At, Records, Valid;
    NamesOfPaths(t, p);
    if p[0] == n && |p| > 1 {
      assert prefix + [n] + p[1..] == prefix + p;
      BelowHas(hash, prefix + [n], t.entries[n], below, p[1..]);
    } else {
      ChildIsValid(t, n);
      ValidJoin(prefix, t, p);
      NameIsValid(prefix, t, n);
      NotBelow(hash, prefix, t.entries[n], n, below, p);
      assert prefix + [n] + [] == prefix + [n];
      Apart(prefix, n, p, []);
      if p[0] != n {
        JoinsDiffer(prefix + p, prefix + [n]);
      } else {
        assert p == [n];
        RootIs(t.entries[n]);
      }
    }
  }

  lemma NameIsValid(prefix: seq<Name>, t: Tree, n: Name)
    requires ValidPath(prefix) && t.Dir? && Valid(t) && n in t.entries
    ensures ValidPath(prefix + [n])
  {
  }

  lemma ChildIsValid(t: Tree, n: Name)
    requires t.Dir? && Valid(t) && n in t.entries
    ensures Valid(t.entries[n])
  {
  }

  lemma BelowHas(hash: Contents -> Digest, prefix: seq<Name>, t: Tree, m: Manifest, p: seq<Name>)
    requires Records(hash, prefix, t, m) && p in Paths(t) && p != []
    ensures Join(prefix + p) in m && m[Join(prefix + p)] == Entry(hash, At(t, p))
  {
  }

  /** Adding the record of one more entry, itself and what is below it. */
  lemma OneMoreEntry(hash: Contents -> Digest, prefix: seq<Name>, t: Tree, names: set<Name>, m: Manifest,
                     n: Name, below: Manifest)
    requires t.Dir? && Valid(t) && ValidPath(prefix) && n in t.entries && n !in names
    requires RecordsSome(hash, prefix, t, names, m)
    requires Records(hash, prefix + [n], t.entries[n], below)
    ensures RecordsSome(hash, prefix, t, names + {n}, m[Join(prefix + [n]) := Entry(hash, t.entries[n])] + below)
  {
    hide Join, Entry, Paths, At, Valid;
    var r := m[Join(prefix + [n]) := Entry(hash, t.entries[n])] + below;
    forall p | p in Paths(t) && p != [] && p[0] in names + {n}
      ensures Join(prefix + p) in r && r[Join(prefix + p)] == Entry(hash, At(t, p))
    {
      KeptEntry(hash, prefix, t, m, n, below, p);
    }
    forall k | k in r
      ensures exists p :: p in Paths(t) && p != [] && p[0] in names + {n} && k == Join(prefix + p)
    {
      var q :| k in below || k == Join(prefix + [n]) ==>
        q in Paths(t.entries[n]) && k == Join(prefix + [n] + q) by {
        EmptyIsPath(t.entries[n]);
        assert prefix + [n] + [] == prefix + [n];
      }
      if k in below || k == Join(prefix + [n]) {
        ChildPaths(t, n, q);
        assert prefix + [n] + q == prefix + ([n] + q);
      }
    }
  }

  lemma EmptyIsPath(t: Tree)
    ensures [] in Paths(t)
  {
  }

  /** `capture_current_esp_manifest`: a walk over the directories, in any order. */
  method Capture(hash: Contents -> Digest, prefix: seq<Name>, t: Tree) returns (manifest: Manifest)
    requires t.Dir? && Valid(t) && ValidPath(prefix)
    ensures Records(hash, prefix, t, manifest)
    decreases t
  {
    hide Join, Paths, At;
    manifest := map[];
    var todo := t.entries.Keys;
    while todo != {}
      invariant todo <= t.entries.Keys
      invariant RecordsSome(hash, prefix, t, t.entries.Keys - todo, manifest)
      decreases |todo|
    {
      var n :| n in todo;
      var below: Manifest := map[];
      if t.entries[n].Dir? {
        below := Capture(hash, prefix + [n], t.entries[n]);
      } else {
        FileIsAlone(hash, prefix + [n], t.entries[n]);
      }
      OneMoreEntry(hash, prefix, t, t.entries.Keys - todo, manifest, n, below);
      assert t.entries.Keys - (todo - {n}) == t.entries.Keys - todo + {n};
      manifest := manifest[Join(prefix + [n]) := Entry(hash, t.entries[n])] + below;
      todo := todo - {n};
    }
    forall p | p in Paths(t) && p != []
      ensures p[0] in t.entries.Keys
    {
      NamesOfPaths(t, p);
    }
  }

  lemma FileIsAlone(hash: Contents -> Digest, prefix: seq<Name>, t: Tree)
    requires t.File?
    ensures Records(hash, prefix, t, map[])
  {
  }

  // ---------------------------------------------------------------------------------------------
  // The recorded manifests
  // ---------------------------------------------------------------------------------------------

  /** Manifests by the time they were recorded; the latest one counts. */
  type History = map<nat, Manifest>

  ghost predicate LatestIs(h: History, m: Manifest) {
    exists t :: t in h && (forall u :: u in h ==> u <= t) && h[t] == m
  }

  /** `update_esp_manifest_if_changed`. */
  ghost function Recorded(h: History, now: nat, m: Manifest): History {
    if LatestIs(h, m) then h else h[now := m]
  }

  /** A recorded manifest counts exactly when it did already, or the clock was not behind the records. */
  lemma RecordedCountsExactly(h: History, now: nat, m: Manifest)
    ensures LatestIs(Recorded(h, now, m), m) <==> LatestIs(h, m) || forall u :: u in h ==> u <= now
  {
    var r := Recorded(h, now, m);
    if forall u :: u in h ==> u <= now {
      assert LatestIs(h, m) || (now in r && r[now] == m && forall u :: u in r ==> u <= now);
    } else {
      var u :| u in h && u > now;
      assert u in r;
      if !LatestIs(h, m) {
        forall t | t in r && forall v :: v in r ==> v <= t
          ensures r[t] != m
        {
          assert forall v :: v in h ==> v in r;
          assert t != now && t in h && h[t] == r[t];
        }
      }
    }
  }

  /** Once a partition has been recorded, checking it says exactly whether it is still the same. */
  lemma CheckTellsExactly(hash: Contents -> Digest, h: History, now: nat, a: Tree, b: Tree, m: Manifest, n: Manifest)
    requires Injective(hash)
    requires a.Dir? && b.Dir? && Valid(a) && Valid(b)
    requires Records(hash, [], a, m) && Records(hash, [], b, n)
    requires forall u :: u in h ==> u <= now
    ensures LatestIs(Recorded(h, now, m), n) <==> a == b
  {
    hide Records, Valid, Injective;
    RecordedCountsExactly(h, now, m);
    SameManifestExactly(hash, a, b, m, n);
    var r := Recorded(h, now, m);
    var t :| t in r && (forall u :: u in r ==> u <= t) && r[t] == m;
    if LatestIs(r, n) {
      var v :| v in r && (forall u :: u in r ==> u <= v) && r[v] == n;
      assert v == t;
    }
  }
}
