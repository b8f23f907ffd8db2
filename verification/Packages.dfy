/** Which packages a package needs, and which files they own, from the package manager's listings. */
module Packages {
  import opened Core

  /** The lines of the information on all packages, as far as they are told apart. */
  datatype Line =
    | Named(name: string)
    | RequiredBy(users: seq<string>)
    | NoColon(words: seq<string>)
    | OtherField

  /** The package that line `i` belongs to. */
  function CurrentAt(lines: seq<Line>, i: nat): Option<string>
    requires i <= |lines|
    decreases i
  {
    if i == 0 then None
    else if lines[i - 1].Named? then Some(lines[i - 1].name)
    else CurrentAt(lines, i - 1)
  }

  /** A record starts with the name of its package. */
  predicate Headed(lines: seq<Line>) {
    forall i :: 0 <= i < |lines| && lines[i].RequiredBy? ==> CurrentAt(lines, i).Some?
  }

  /** `(c, u)`: on the line of `c` that starts with its label, `u` is listed as requiring `c`. */
  function Edges(lines: seq<Line>): set<(string, string)>
    requires Headed(lines)
  {
    set i, u | 0 <= i < |lines| && lines[i].RequiredBy? && u in lines[i].users :: (CurrentAt(lines, i).value, u)
  }

  // ---------------------------------------------------------------------------------------------
  // Reachability
  // ---------------------------------------------------------------------------------------------

  ghost predicate IsPath(edges: set<(string, string)>, path: seq<string>) {
    forall i :: 0 <= i < |path| - 1 ==> (path[i + 1], path[i]) in edges
  }

  /** `x` is `p` or needed by it, directly or through other packages. */
  ghost predicate Needed(edges: set<(string, string)>, p: string, x: string) {
    exists path: seq<string> :: |path| > 0 && path[0] == p && path[|path| - 1] == x && IsPath(edges, path)
  }

  predicate Closed(edges: set<(string, string)>, packages: set<string>) {
    forall e :: e in edges && e.1 in packages ==> e.0 in packages
  }

  lemma NeededStep(edges: set<(string, string)>, p: string, u: string, c: string)
    requires Needed(edges, p, u) && (c, u) in edges
    ensures Needed(edges, p, c)
  {
    var path: seq<string> :| |path| > 0 && path[0] == p && path[|path| - 1] == u && IsPath(edges, path);
    var longer := path + [c];
    assert longer[0] == p && longer[|longer| - 1] == c;
    assert IsPath(edges, longer);
  }

  lemma NeededSelf(edges: set<(string, string)>, p: string)
    ensures Needed(edges, p, p)
  {
    assert [p][0] == p && IsPath(edges, [p]);
  }

  lemma {:induction false} ClosedHoldsPath(edges: set<(string, string)>, packages: set<string>, path: seq<string>)
    requires Closed(edges, packages) && |path| > 0 && path[0] in packages && IsPath(edges, path)
    ensures path[|path| - 1] in packages
    decreases |path|
  {
    if |path| > 1 {
      assert (path[1], path[0]) in edges;
      forall i | 0 <= i < |path[1..]| - 1
        ensures (path[1..][i + 1], path[1..][i]) in edges
      {
        assert (path[i + 1 + 1], path[i + 1]) in edges;
      }
      ClosedHoldsPath(edges, packages, path[1..]);
    }
  }

  /** A closed set of needed packages is all of them. */
  lemma ClosedIsAll(edges: set<(string, string)>, p: string, packages: set<string>)
    requires p in packages && Closed(edges, packages)
    requires forall x :: x in packages ==> Needed(edges, p, x)
    ensures forall x :: x in packages <==> Needed(edges, p, x)
  {
    forall x | Needed(edges, p, x)
      ensures x in packages
    {
      var path: seq<string> :| |path| > 0 && path[0] == p && path[|path| - 1] == x && IsPath(edges, path);
      ClosedHoldsPath(edges, packages, path);
    }
  }

  // ---------------------------------------------------------------------------------------------
  // The fixpoint loop
  // ---------------------------------------------------------------------------------------------

  /** The names that can come into the set. */
  function AllNames(lines: seq<Line>): set<string> {
    set i | 0 <= i < |lines| && lines[i].Named? :: lines[i].name
  }

  lemma {:induction false} CurrentIsNamed(lines: seq<Line>, i: nat)
    requires i <= |lines|
    ensures CurrentAt(lines, i).Some? ==> CurrentAt(lines, i).value in AllNames(lines)
    decreases i
  {
    if i > 0 && !lines[i - 1].Named? {
      CurrentIsNamed(lines, i - 1);
    }
  }

  predicate Meets(words: seq<string>, packages: set<string>) {
    exists w :: w in words && w in packages
  }

  /** All lines before `i` whose users meet `before` have put their package into `packages`. */
  predicate Passed(lines: seq<Line>, i: nat, before: set<string>, packages: set<string>)
    requires Headed(lines) && i <= |lines|
  {
    forall j :: 0 <= j < i && lines[j].RequiredBy? && Meets(lines[j].users, before) ==>
      CurrentAt(lines, j).value in packages
  }

  /** All packages found so far are needed, and come from the listing. */
  ghost predicate Sound(lines: seq<Line>, p: string, packages: set<string>)
    requires Headed(lines)
  {
    p in packages && forall x :: x in packages ==> Needed(Edges(lines), p, x) && (x == p || x in AllNames(lines))
  }

  lemma AddIsSound(lines: seq<Line>, p: string, packages: set<string>, i: nat)
    requires Headed(lines) && i < |lines| && lines[i].RequiredBy?
    requires Sound(lines, p, packages) && Meets(lines[i].users, packages)
    ensures Sound(lines, p, packages + {CurrentAt(lines, i).value})
  {
    var c := CurrentAt(lines, i).value;
    var u :| u in lines[i].users && u in packages;
    assert (c, u) in Edges(lines);
    NeededStep(Edges(lines), p, u, c);
    CurrentIsNamed(lines, i);
  }

  lemma PassedAllIsClosed(lines: seq<Line>, packages: set<string>)
    requires Headed(lines) && Passed(lines, |lines|, packages, packages)
    ensures Closed(Edges(lines), packages)
  {
    forall e | e in Edges(lines) && e.1 in packages
      ensures e.0 in packages
    {
      var j, u :| 0 <= j < |lines| && lines[j].RequiredBy? && u in lines[j].users
        && e == (CurrentAt(lines, j).value, u);
      assert Meets(lines[j].users, packages);
    }
  }

  /**
   `get_dependent_packages`: passes over all lines, adding to the set that the pass is looking at, until
   a pass adds nothing.  It ends, with exactly the packages that are needed.
   */
  method DependentPackages(lines: seq<Line>, p: string) returns (packages: set<string>)
    requires Headed(lines)
    ensures forall x :: x in packages <==> Needed(Edges(lines), p, x)
  {
    hide Edges, Needed, AllNames, CurrentAt, Passed, Meets, Sound;
    packages := {p};
    SoundStart(lines, p);
    var size := 0;
    var current: Option<string> := None;
    var lastWasRequiredBy := false;
    ghost var before: set<string> := {};
    while |packages| > size
      invariant Sound(lines, p, packages)
      invariant lastWasRequiredBy ==> current.Some? && current.value in packages
      invariant before <= packages && size == |before|
      invariant before != {} ==> Passed(lines, |lines|, before, packages)
      decreases |AllNames(lines) + {p}| - size
    {
      Bounded(lines, p, packages);
      size := |packages|;
      before := packages;
      packages, current, lastWasRequiredBy := Pass(lines, p, packages, current, lastWasRequiredBy);
      NotLess(before, packages);
    }
    SameSize(before, packages);
    assert before == packages;
    SoundHas(lines, p, packages);
    PassedAllIsClosed(lines, packages);
    ClosedIsAll(Edges(lines), p, packages);
  }

  /** One pass.  Lines that continue a list are looked at only after a hit, which makes them idle. */
  method Pass(lines: seq<Line>, p: string, start: set<string>, first: Option<string>, firstLast: bool)
    returns (packages: set<string>, current: Option<string>, lastWasRequiredBy: bool)
    requires Headed(lines) && Sound(lines, p, start)
    requires firstLast ==> first.Some? && first.value in start
    ensures Sound(lines, p, packages) && start <= packages && Passed(lines, |lines|, start, packages)
    ensures lastWasRequiredBy ==> current.Some? && current.value in packages
  {
    hide Edges, Needed, AllNames, Sound;
    packages, current, lastWasRequiredBy := start, first, firstLast;
    var i := 0;
    while i < |lines|
      invariant 0 <= i <= |lines|
      invariant Sound(lines, p, packages) && start <= packages && Passed(lines, i, start, packages)
      invariant CurrentAt(lines, i).Some? ==> current == CurrentAt(lines, i)
      invariant lastWasRequiredBy ==> current.Some? && current.value in packages
    {
      var line := lines[i];
      if line.RequiredBy? || (lastWasRequiredBy && line.NoColon?) {
        if Meets(if line.RequiredBy? then line.users else line.words, packages) {
          if line.RequiredBy? {
            AddIsSound(lines, p, packages, i);
          } else {
            assert packages + {current.value} == packages;
          }
          packages := packages + {current.value};
          lastWasRequiredBy := true;
          i := i + 1;
          continue;
        }
      }
      lastWasRequiredBy := false;
      if line.Named? {
        current := Some(line.name);
      }
      i := i + 1;
    }
  }

  lemma SoundStart(lines: seq<Line>, p: string)
    requires Headed(lines)
    ensures Sound(lines, p, {p})
  {
    NeededSelf(Edges(lines), p);
  }

  lemma SoundHas(lines: seq<Line>, p: string, packages: set<string>)
    requires Headed(lines) && Sound(lines, p, packages)
    ensures p in packages && forall x :: x in packages ==> Needed(Edges(lines), p, x)
  {
  }

  lemma NotLess(a: set<string>, b: set<string>)
    requires a <= b
    ensures |a| <= |b|
  {
    assert b == a + (b - a);
  }

  lemma SameSize(a: set<string>, b: set<string>)
    requires a <= b && |b| <= |a|
    ensures a == b
  {
    assert b == a + (b - a);
  }

  lemma Bounded(lines: seq<Line>, p: string, packages: set<string>)
    requires Headed(lines) && Sound(lines, p, packages)
    ensures |packages| <= |AllNames(lines) + {p}| && packages != {}
  {
    NotLess(packages, AllNames(lines) + {p});
  }

  // ---------------------------------------------------------------------------------------------
  // The order of the listing
  // ---------------------------------------------------------------------------------------------

  lemma {:induction false} CurrentInJoin(a: seq<Line>, b: seq<Line>, i: nat)
    requires i <= |b|
    ensures CurrentAt(b, i).Some? ==> CurrentAt(a + b, |a| + i) == CurrentAt(b, i)
    decreases i
  {
    if i > 0 {
      CurrentInJoin(a, b, i - 1);
    }
  }

  lemma {:induction false} CurrentInFront(a: seq<Line>, b: seq<Line>, i: nat)
    requires i <= |a|
    ensures CurrentAt(a + b, i) == CurrentAt(a, i)
    decreases i
  {
    if i > 0 {
      CurrentInFront(a, b, i - 1);
    }
  }

  lemma EdgesOfJoin(a: seq<Line>, b: seq<Line>)
    requires Headed(a) && Headed(b)
    ensures Headed(a + b) && Edges(a + b) == Edges(a) + Edges(b)
  {
    var ab := a + b;
    forall i | 0 <= i < |ab| && ab[i].RequiredBy?
      ensures CurrentAt(ab, i) == if i < |a| then CurrentAt(a, i) else CurrentAt(b, i - |a|)
      ensures CurrentAt(ab, i).Some?
    {
      if i < |a| {
        CurrentInFront(a, b, i);
      } else {
        CurrentInJoin(a, b, i - |a|);
      }
    }
    hide CurrentAt;
    forall e | e in Edges(a) + Edges(b)
      ensures e in Edges(ab)
    {
      if e in Edges(a) {
        var i, u :| 0 <= i < |a| && a[i].RequiredBy? && u in a[i].users && e == (CurrentAt(a, i).value, u);
        assert ab[i] == a[i];
      } else {
        var i, u :| 0 <= i < |b| && b[i].RequiredBy? && u in b[i].users && e == (CurrentAt(b, i).value, u);
        assert ab[|a| + i] == b[i];
      }
    }
  }

  /** The listing of some records, each of which starts with the name of its package. */
  function Listing(records: seq<seq<Line>>): seq<Line> {
    if records == [] then [] else records[0] + Listing(records[1..])
  }

  lemma {:induction false} EdgesOfListing(records: seq<seq<Line>>)
    requires forall r :: r in records ==> Headed(r)
    ensures Headed(Listing(records))
    ensures forall e :: e in Edges(Listing(records)) <==> exists r :: r in records && e in Edges(r)
    decreases |records|
  {
    hide Edges, Headed;
    if records == [] {
      NoEdges();
    } else {
      EdgesOfListing(records[1..]);
      EdgesOfJoin(records[0], Listing(records[1..]));
      assert records == [records[0]] + records[1..];
    }
  }

  lemma NoEdges()
    ensures Headed([]) && Edges([]) == {}
  {
  }

  /** What is needed does not depend on the order in which the records are listed. */
  lemma OrderDoesNotMatter(records: seq<seq<Line>>, others: seq<seq<Line>>, p: string, x: string)
    requires forall r :: r in records ==> Headed(r)
    requires multiset(records) == multiset(others)
    ensures Headed(Listing(records)) && Headed(Listing(others))
    ensures Needed(Edges(Listing(records)), p, x) <==> Needed(Edges(Listing(others)), p, x)
  {
    hide Edges, Headed, Listing;
    forall r
      ensures r in records <==> r in others
    {
      assert r in records <==> r in multiset(records);
      assert r in others <==> r in multiset(others);
    }
    EdgesOfListing(records);
    EdgesOfListing(others);
    assert Edges(Listing(records)) == Edges(Listing(others));
  }

  // ---------------------------------------------------------------------------------------------
  // Lists that go over several lines
  // ---------------------------------------------------------------------------------------------

  /** Line `i` belongs to the list of a line before it that starts with the label. */
  predicate Continues(lines: seq<Line>, i: nat)
    requires i < |lines|
    decreases i
  {
    lines[i].NoColon? && i > 0 && (lines[i - 1].RequiredBy? || Continues(lines, i - 1))
  }

  /** `(c, u)`: on a line that continues the list of `c`, `u` is listed as requiring `c`. */
  function LaterEdges(lines: seq<Line>): set<(string, string)> {
    set i, u | 0 <= i < |lines| && Continues(lines, i) && CurrentAt(lines, i).Some? && u in lines[i].words
      :: (CurrentAt(lines, i).value, u)
  }

  /** What the listing says, on all lines. */
  function AllEdges(lines: seq<Line>): set<(string, string)>
    requires Headed(lines)
  {
    Edges(lines) + LaterEdges(lines)
  }

  lemma {:induction false} PathInside(some: set<(string, string)>, all: set<(string, string)>, p: string,
                                      path: seq<string>)
    requires |path| > 0 && path[0] == p && IsPath(all, path)
    requires forall e :: e in all && Needed(some, p, e.1) ==> Needed(some, p, e.0)
    ensures Needed(some, p, path[|path| - 1])
    decreases |path|
  {
    var n := |path| - 1;
    if n == 0 {
      NeededSelf(some, p);
    } else {
      forall i | 0 <= i < |path[..n]| - 1
        ensures (path[..n][i + 1], path[..n][i]) in all
      {
        assert (path[i + 1], path[i]) in all;
      }
      PathInside(some, all, p, path[..n]);
      assert (path[n - 1 + 1], path[n - 1]) in all;
    }
  }

  lemma MoreEdgesNeedMore(some: set<(string, string)>, all: set<(string, string)>, p: string, x: string)
    requires some <= all && Needed(some, p, x)
    ensures Needed(all, p, x)
  {
    var path: seq<string> :| |path| > 0 && path[0] == p && path[|path| - 1] == x && IsPath(some, path);
    assert IsPath(all, path);
  }

  /** For one package: the result is all that the listing says exactly when it is closed under the later lines. */
  lemma ContinuationsMatterFor(lines: seq<Line>, p: string)
    requires Headed(lines)
    ensures (forall x :: Needed(Edges(lines), p, x) <==> Needed(AllEdges(lines), p, x)) <==>
      forall e :: e in LaterEdges(lines) && Needed(Edges(lines), p, e.1) ==> Needed(Edges(lines), p, e.0)
  {
    hide Edges, Needed, LaterEdges;
    var some, all := Edges(lines), AllEdges(lines);
    if forall x :: Needed(some, p, x) <==> Needed(all, p, x) {
      forall e | e in LaterEdges(lines) && Needed(some, p, e.1)
        ensures Needed(some, p, e.0)
      {
        NeededStep(all, p, e.1, e.0);
      }
    }
    if forall e :: e in LaterEdges(lines) && Needed(some, p, e.1) ==> Needed(some, p, e.0) {
      forall e | e in all && Needed(some, p, e.1)
        ensures Needed(some, p, e.0)
      {
        if e in some {
          NeededStep(some, p, e.1, e.0);
        }
      }
      forall x
        ensures Needed(some, p, x) <==> Needed(all, p, x)
      {
        SameNeeded(some, all, p, x);
      }
    }
  }

  lemma NeededThrough(edges: set<(string, string)>, p: string, u: string, x: string)
    requires Needed(edges, p, u) && Needed(edges, u, x)
    ensures Needed(edges, p, x)
  {
    var path: seq<string> :| |path| > 0 && path[0] == u && path[|path| - 1] == x && IsPath(edges, path);
    NeededAlong(edges, p, path);
  }

  lemma {:induction false} NeededAlong(edges: set<(string, string)>, p: string, path: seq<string>)
    requires |path| > 0 && IsPath(edges, path) && Needed(edges, p, path[0])
    ensures Needed(edges, p, path[|path| - 1])
    decreases |path|
  {
    hide Needed;
    if |path| > 1 {
      assert (path[1], path[0]) in edges;
      NeededStep(edges, p, path[0], path[1]);
      forall i | 0 <= i < |path[1..]| - 1
        ensures (path[1..][i + 1], path[1..][i]) in edges
      {
        assert (path[i + 1 + 1], path[i + 1]) in edges;
      }
      NeededAlong(edges, p, path[1..]);
    }
  }

  /**
   The code takes no package from a continuation line.  Its results are nevertheless all that the listing
   says, for every package, exactly when the first lines already lead from each name on a continuation
   line to the package that the line belongs to.
   */
  lemma ContinuationsMatterExactly(lines: seq<Line>)
    requires Headed(lines)
    ensures (forall p, x :: Needed(Edges(lines), p, x) <==> Needed(AllEdges(lines), p, x)) <==>
      forall e :: e in LaterEdges(lines) ==> Needed(Edges(lines), e.1, e.0)
  {
    hide Edges, Needed, LaterEdges;
    var some, all := Edges(lines), AllEdges(lines);
    if forall p, x :: Needed(some, p, x) <==> Needed(all, p, x) {
      forall e | e in LaterEdges(lines)
        ensures Needed(some, e.1, e.0)
      {
        NeededSelf(all, e.1);
        NeededStep(all, e.1, e.1, e.0);
      }
    }
    if forall e :: e in LaterEdges(lines) ==> Needed(some, e.1, e.0) {
      forall p, x
        ensures Needed(some, p, x) <==> Needed(all, p, x)
      {
        forall e | e in LaterEdges(lines) && Needed(some, p, e.1)
          ensures Needed(some, p, e.0)
        {
          NeededThrough(some, p, e.1, e.0);
        }
        ContinuationsMatterFor(lines, p);
      }
    }
  }

  /** A listing whose list goes over two lines: what the second line says is lost. */
  const TWO_LINES: seq<Line> := [Named("p"), Named("c"), RequiredBy(["x"]), NoColon(["p"])]

  lemma SecondLineIsLost()
    ensures Headed(TWO_LINES)
    ensures Needed(AllEdges(TWO_LINES), "p", "c") && !Needed(Edges(TWO_LINES), "p", "c")
  {
    var lines := TWO_LINES;
    assert CurrentAt(lines, 1) == Some("p");
    assert CurrentAt(lines, 2) == Some("c");
    assert CurrentAt(lines, 3) == Some("c");
    assert Continues(lines, 3) && "p" in lines[3].words;
    assert ("c", "p") in LaterEdges(lines);
    NeededSelf(AllEdges(lines), "p");
    NeededStep(AllEdges(lines), "p", "p", "c");
    NeededSelf(Edges(lines), "p");
    assert Closed(Edges(lines), {"p"});
    assert "p"[0] != "c"[0];
    forall x | x in {"p"}
      ensures Needed(Edges(lines), "p", x)
    {
    }
    ClosedIsAll(Edges(lines), "p", {"p"});
  }

  /** Line `i` is in the record that starts at line `j`. */
  predicate InRecord(lines: seq<Line>, j: nat, i: nat) {
    j < i < |lines| && lines[j].Named? && forall k :: j < k < i ==> !lines[k].Named?
  }

  lemma {:induction false} RecordIsCurrent(lines: seq<Line>, j: nat, i: nat)
    requires InRecord(lines, j, i)
    ensures CurrentAt(lines, i) == Some(lines[j].name)
    decreases i
  {
    if j < i - 1 {
      RecordIsCurrent(lines, j, i - 1);
    }
  }

  lemma UserNeeds(lines: seq<Line>, p: string, i: nat, j: nat)
    requires Headed(lines) && InRecord(lines, j, i) && lines[i].RequiredBy? && p in lines[i].users
    ensures Needed(Edges(lines), p, lines[j].name)
  {
    hide Needed;
    RecordIsCurrent(lines, j, i);
    NeededSelf(Edges(lines), p);
    assert (lines[j].name, p) in Edges(lines);
    NeededStep(Edges(lines), p, p, lines[j].name);
  }

  lemma NeededFrom(edges: set<(string, string)>, p: string, x: string)
    requires Needed(edges, p, x) && x != p
    ensures exists u :: (x, u) in edges && Needed(edges, p, u)
  {
    var path: seq<string> :| |path| > 0 && path[0] == p && path[|path| - 1] == x && IsPath(edges, path);
    var n := |path| - 2;
    assert (path[n + 1], path[n]) in edges;
    assert IsPath(edges, path[..n + 1]);
    assert Needed(edges, p, path[n]);
  }

  /**
   A listing is read from the record to its users: a package is needed at once by each that its record
   names on the line with the label, and whatever else is needed is needed by one of those.
   */
  lemma RecordNamesUsers(lines: seq<Line>, p: string, x: string)
    requires Headed(lines)
    ensures forall i: nat, j: nat :: InRecord(lines, j, i) && lines[i].RequiredBy? && p in lines[i].users ==>
      Needed(Edges(lines), p, lines[j].name)
    ensures Needed(Edges(lines), p, x) && x != p ==>
      exists i, u :: 0 <= i < |lines| && lines[i].RequiredBy? && u in lines[i].users
        && CurrentAt(lines, i) == Some(x) && Needed(Edges(lines), p, u)
  {
    hide Needed;
    forall i: nat, j: nat | InRecord(lines, j, i) && lines[i].RequiredBy? && p in lines[i].users
      ensures Needed(Edges(lines), p, lines[j].name)
    {
      UserNeeds(lines, p, i, j);
    }
    if Needed(Edges(lines), p, x) && x != p {
      NeededFrom(Edges(lines), p, x);
    }
  }

  lemma SameNeeded(some: set<(string, string)>, all: set<(string, string)>, p: string, x: string)
    requires some <= all
    requires forall e :: e in all && Needed(some, p, e.1) ==> Needed(some, p, e.0)
    ensures Needed(some, p, x) <==> Needed(all, p, x)
  {
    if Needed(some, p, x) {
      MoreEdgesNeedMore(some, all, p, x);
    }
    if Needed(all, p, x) {
      var path: seq<string> :| |path| > 0 && path[0] == p && path[|path| - 1] == x && IsPath(all, path);
      PathInside(some, all, p, path);
    }
  }

  // ---------------------------------------------------------------------------------------------
  // Files
  // ---------------------------------------------------------------------------------------------

  /** The files in a package's listing, whose lines are the package's name, a space and a path. */
  function Owned(listing: seq<string>, name: string): set<string> {
    set i | 0 <= i < |listing| && name + " " <= listing[i] :: listing[i][|name| + 1..]
  }

  /** A file is a package's when its listing has the package's name, a space and the file on a line. */
  lemma OwnedExactly(listing: seq<string>, name: string, file: string)
    ensures file in Owned(listing, name) <==> name + " " + file in listing
  {
    if file in Owned(listing, name) {
      var i :| 0 <= i < |listing| && name + " " <= listing[i] && listing[i][|name| + 1..] == file;
      assert listing[i] == name + " " + listing[i][|name| + 1..];
    }
    if name + " " + file in listing {
      var i :| 0 <= i < |listing| && listing[i] == name + " " + file;
      assert listing[i][|name| + 1..] == file && listing[i][..|name| + 1] == name + " ";
    }
  }

  /** `get_files_from_package`: the files of a package and of all that it needs. */
  method FilesFrom(lines: seq<Line>, listings: map<string, seq<string>>, p: string, includeDependencies: bool)
    returns (files: set<string>)
    requires Headed(lines)
    requires p in listings && forall x :: x in AllNames(lines) ==> x in listings
    ensures forall f :: f in files <==> exists x ::
      (x == p || (includeDependencies && Needed(Edges(lines), p, x))) && x in listings && f in Owned(listings[x], x)
  {
    hide Edges, Needed, AllNames, Owned;
    var packages := {p};
    if includeDependencies {
      packages := DependentPackages(lines, p);
    }
    NeededSelf(Edges(lines), p);
    files := {};
    var todo := packages;
    while todo != {}
      invariant todo <= packages
      invariant forall f :: f in files <==>
        exists x :: x in packages - todo && x in listings && f in Owned(listings[x], x)
      decreases |todo|
    {
      var x :| x in todo;
      NeededIsNamed(lines, p, x);
      files := files + Owned(listings[x], x);
      todo := todo - {x};
    }
  }

  lemma NeededIsNamed(lines: seq<Line>, p: string, x: string)
    requires Headed(lines)
    ensures Needed(Edges(lines), p, x) ==> x == p || x in AllNames(lines)
  {
    if Needed(Edges(lines), p, x) {
      var path: seq<string> :|
        |path| > 0 && path[0] == p && path[|path| - 1] == x && IsPath(Edges(lines), path);
      if |path| > 1 {
        var n := |path| - 2;
        assert (path[n + 1], path[n]) in Edges(lines);
        var i, u :| 0 <= i < |lines| && lines[i].RequiredBy? && u in lines[i].users
          && (path[n + 1], path[n]) == (CurrentAt(lines, i).value, u);
        CurrentIsNamed(lines, i);
      }
    }
  }
}
