/** The rewriting of the HOOKS list of mkinitcpio, so that the boot image can open the encrypted system. */
module Hooks {

  const AUTO: string := "auto_tpm_encrypt"

  /** The device manager and the encryption hook of the two kinds of boot image. */
  function Manager(systemd: bool): string {
    if systemd then "systemd" else "udev"
  }

  function Encryption(systemd: bool): string {
    if systemd then "sd-encrypt" else "encrypt"
  }

  /** The hooks that do not go with the kind of boot image: those of the other kind. */
  predicate Conflicts(systemd: bool, hook: string) {
    hook == Manager(!systemd) || hook == Encryption(!systemd)
  }

  // ---------------------------------------------------------------------------------------------
  // Lists
  // ---------------------------------------------------------------------------------------------

  function Index(s: seq<string>, x: string): (i: nat)
    requires x in s
    ensures i < |s| && s[i] == x && x !in s[..i]
  {
    if s[0] == x then 0 else 1 + Index(s[1..], x)
  }

  function Insert(s: seq<string>, at: nat, x: string): seq<string>
    requires at <= |s|
  {
    s[..at] + [x] + s[at..]
  }

  /** `list.remove`, where the element is there at all. */
  function Remove(s: seq<string>, x: string): seq<string> {
    if x in s then s[..Index(s, x)] + s[Index(s, x) + 1..] else s
  }

  function AddAfter(s: seq<string>, x: string, before: string): (r: seq<string>)
    requires before in s
    ensures x in r && forall y :: y in s ==> y in r
  {
    if x in s then s else
      var r := Insert(s, Index(s, before) + 1, x);
      assert s == s[..Index(s, before) + 1] + s[Index(s, before) + 1..];
      r
  }

  function AddBefore(s: seq<string>, x: string, after: string): (r: seq<string>)
    requires after in s
    ensures x in r && forall y :: y in s ==> y in r
  {
    if x in s then s else
      var r := Insert(s, Index(s, after), x);
      assert s == s[..Index(s, after)] + s[Index(s, after)..];
      r
  }

  function Cleaned(systemd: bool, hooks: seq<string>): seq<string> {
    Remove(Remove(hooks, Manager(!systemd)), Encryption(!systemd))
  }

  function Started(hooks: seq<string>): (r: seq<string>)
    ensures "base" in r && forall y :: y in hooks ==> y in r
  {
    if "base" in hooks then hooks else Insert(hooks, 0, "base")
  }

  /** The list with every other hook that is needed and missing put in its place. */
  function Prepared(systemd: bool, hooks: seq<string>): (r: seq<string>)
    ensures Encryption(systemd) in r
  {
    AddAfter(AddAfter(HalfPrepared(systemd, hooks), "block", "modconf"), Encryption(systemd), "block")
  }

  /** The hooks up to `modconf`. */
  function HalfPrepared(systemd: bool, hooks: seq<string>): (r: seq<string>)
    ensures "modconf" in r
  {
    var h := AddAfter(Started(hooks), Manager(systemd), "base");
    AddAfter(AddAfter(h, "autodetect", Manager(systemd)), "modconf", "autodetect")
  }

  function Filled(systemd: bool, hooks: seq<string>): seq<string> {
    AddBefore(Prepared(systemd, hooks), AUTO, Encryption(systemd))
  }

  function Rewritten(systemd: bool, hooks: seq<string>): seq<string> {
    Filled(systemd, Cleaned(systemd, hooks))
  }

  method InsertAfter(hooks: seq<string>, x: string, before: string) returns (r: seq<string>)
    requires before in hooks
    ensures r == AddAfter(hooks, x, before)
  {
    hide Index;
    r := if x !in hooks then Insert(hooks, Index(hooks, before) + 1, x) else hooks;
  }

  /** The loop body of the rewriting, on the list it changes.  No index is ever asked of a missing hook. */
  method Rewrite(systemd: bool, original: seq<string>) returns (hooks: seq<string>)
    ensures hooks == Rewritten(systemd, original)
  {
    hide Index, AddAfter, Manager, Encryption, AUTO;
    var manager, encryption := Manager(systemd), Encryption(systemd);
    hooks := original;
    if Manager(!systemd) in hooks {
      hooks := Remove(hooks, Manager(!systemd));
    }
    if Encryption(!systemd) in hooks {
      hooks := Remove(hooks, Encryption(!systemd));
    }
    if "base" !in hooks {
      hooks := Insert(hooks, 0, "base");
    }
    hooks := InsertAfter(hooks, manager, "base");
    hooks := InsertAfter(hooks, "autodetect", manager);
    hooks := InsertAfter(hooks, "modconf", "autodetect");
    hooks := InsertAfter(hooks, "block", "modconf");
    hooks := InsertAfter(hooks, encryption, "block");
    if AUTO !in hooks {
      hooks := Insert(hooks, Index(hooks, encryption), AUTO);
    }
  }

  // ---------------------------------------------------------------------------------------------
  // What it comes to
  // ---------------------------------------------------------------------------------------------

  /** The elements of a list that are not in `left`, in their order. */
  function Others(s: seq<string>, left: set<string>): seq<string> {
    if s == [] then [] else (if s[0] in left then [] else [s[0]]) + Others(s[1..], left)
  }

  lemma {:induction false} OthersJoin(a: seq<string>, b: seq<string>, left: set<string>)
    ensures Others(a + b, left) == Others(a, left) + Others(b, left)
    decreases |a|
  {
    hide Others;
    FirstOther(a, left);
    FirstOther(a + b, left);
    if a == [] {
      assert a + b == b && [] + Others(b, left) == Others(b, left);
    } else {
      OthersJoin(a[1..], b, left);
      assert (a + b)[1..] == a[1..] + b;
      var first := if a[0] in left then [] else [a[0]];
      assert first + (Others(a[1..], left) + Others(b, left)) == first + Others(a[1..], left) + Others(b, left);
    }
  }

  lemma FirstOther(s: seq<string>, left: set<string>)
    ensures s == [] ==> Others(s, left) == []
    ensures s != [] ==> Others(s, left) == (if s[0] in left then [] else [s[0]]) + Others(s[1..], left)
  {
  }

  lemma OthersInsert(s: seq<string>, at: nat, x: string, left: set<string>)
    requires at <= |s| && x in left
    ensures Others(Insert(s, at, x), left) == Others(s, left)
  {
    hide Others;
    var a, b := s[..at], s[at..];
    OthersJoin(a, [x] + b, left);
    OthersJoin([x], b, left);
    OthersJoin(a, b, left);
    OthersOne(x, left);
    assert s == a + b;
    assert Insert(s, at, x) == a + ([x] + b);
    assert [] + Others(b, left) == Others(b, left);
  }

  lemma CountInsert(s: seq<string>, at: nat, x: string)
    requires at <= |s|
    ensures multiset(Insert(s, at, x)) == multiset(s) + multiset{x}
  {
    assert s == s[..at] + s[at..];
  }

  lemma OthersOne(x: string, left: set<string>)
    requires x in left
    ensures Others([x], left) == []
  {
  }

  lemma OthersRemove(s: seq<string>, x: string, left: set<string>)
    requires x in left
    ensures Others(Remove(s, x), left) == Others(s, left)
    ensures multiset(Remove(s, x)) == multiset(s) - multiset{x}
  {
    hide Others, Remove, Insert, Index;
    RemoveInsert(s, x);
    if x in s {
      var i := Index(s, x);
      OthersInsert(Remove(s, x), i, x, left);
      CountInsert(Remove(s, x), i, x);
    }
  }

  lemma RemoveInsert(s: seq<string>, x: string)
    ensures x !in s ==> Remove(s, x) == s
    ensures x in s ==> Index(s, x) <= |Remove(s, x)| && Insert(Remove(s, x), Index(s, x), x) == s
  {
    hide Index;
    if x in s {
      var i := Index(s, x);
      assert Remove(s, x)[..i] == s[..i] && Remove(s, x)[i..] == s[i + 1..];
      assert s == s[..i] + [s[i]] + s[i + 1..];
    }
  }

  /** The hooks that a rewritten list must have. */
  function Required(systemd: bool): seq<string> {
    ["base", Manager(systemd), "autodetect", "modconf", "block", Encryption(systemd), AUTO]
  }

  lemma Names(systemd: bool)
    ensures forall i, j :: 0 <= i < j < 7 ==> Required(systemd)[i] != Required(systemd)[j]
    ensures Manager(!systemd) != Encryption(!systemd)
    ensures Manager(!systemd) !in Required(systemd) && Encryption(!systemd) !in Required(systemd)
  {
    assert |"base"| == 4 && |"udev"| == 4 && "base"[0] != "udev"[0];
    assert |"modconf"| == 7 && |"systemd"| == 7 && |"encrypt"| == 7;
    assert "modconf"[0] == 'm' && "systemd"[0] == 's' && "encrypt"[0] == 'e';
    assert |"autodetect"| == 10 && |"sd-encrypt"| == 10 && "autodetect"[0] != "sd-encrypt"[0];
    assert |"block"| == 5 && |AUTO| == 16;
  }

  /** From `c` to `h`, the hooks of `done` that were missing were added, once each. */
  ghost predicate Filling(c: seq<string>, h: seq<string>, done: set<string>, left: set<string>) {
    && (forall y :: multiset(h)[y] == if y in done && y !in c then 1 else multiset(c)[y])
    && Others(h, left) == Others(c, left)
  }

  lemma FillInsert(c: seq<string>, h: seq<string>, done: set<string>, left: set<string>, at: nat, x: string)
    requires Filling(c, h, done, left) && x !in done && at <= |h| && x !in h && x in left
    ensures Filling(c, Insert(h, at, x), done + {x}, left)
  {
    hide Insert, Others;
    CountInsert(h, at, x);
    OthersInsert(h, at, x, left);
    assert multiset(h)[x] == 0;
  }

  lemma FillStep(c: seq<string>, h: seq<string>, done: set<string>, left: set<string>, x: string, before: string)
    requires Filling(c, h, done, left) && x !in done && before in h && (x in c || x in left)
    ensures Filling(c, AddAfter(h, x, before), done + {x}, left)
  {
    hide Insert, Others;
    assert x in c <==> multiset(c)[x] > 0;
    assert x in h <==> multiset(h)[x] > 0;
    if x !in h {
      FillInsert(c, h, done, left, Index(h, before) + 1, x);
    }
  }

  lemma HalfPreparedIs(systemd: bool, c: seq<string>, left: set<string>)
    requires forall x :: x in Required(systemd) ==> x in c || x in left
    ensures Filling(c, HalfPrepared(systemd, c), (set x | x in Required(systemd)[..4]), left)
  {
    Names(systemd);
    hide Index, AddAfter, Manager, Encryption, AUTO, Filling, Others, Insert, Started;
    var r := Required(systemd);
    var h0 := Started(c);
    StartedIs(c, left);
    var h1 := AddAfter(h0, r[1], r[0]);
    FillStep(c, h0, {r[0]}, left, r[1], r[0]);
    var h2 := AddAfter(h1, r[2], r[1]);
    FillStep(c, h1, {r[0]} + {r[1]}, left, r[2], r[1]);
    FillStep(c, h2, {r[0]} + {r[1]} + {r[2]}, left, r[3], r[2]);
    assert {r[0]} + {r[1]} + {r[2]} + {r[3]} == set x | x in r[..4];
  }

  lemma FilledIs(systemd: bool, c: seq<string>, left: set<string>)
    requires forall x :: x in Required(systemd) ==> x in c || x in left
    ensures Filling(c, Filled(systemd, c), (set x | x in Required(systemd)), left)
  {
    Names(systemd);
    hide Index, AddAfter, Manager, Encryption, AUTO, Filling, Others, Insert, HalfPrepared;
    var r := Required(systemd);
    var done := set x | x in r[..4];
    var h3 := HalfPrepared(systemd, c);
    HalfPreparedIs(systemd, c, left);
    var h4 := AddAfter(h3, r[4], r[3]);
    FillStep(c, h3, done, left, r[4], r[3]);
    var h5 := AddAfter(h4, r[5], r[4]);
    FillStep(c, h4, done + {r[4]}, left, r[5], r[4]);
    FillLast(c, h5, done + {r[4]} + {r[5]}, left, r[6], r[5]);
    assert done + {r[4]} + {r[5]} + {r[6]} == set x | x in r;
  }

  lemma StartedIs(c: seq<string>, left: set<string>)
    requires "base" in c || "base" in left
    ensures Filling(c, Started(c), {"base"}, left)
  {
    hide Filling, Insert;
    Unfilled(c, left);
    assert {} + {"base"} == {"base"};
    if "base" !in c {
      FillInsert(c, c, {}, left, 0, "base");
    } else {
      FillWider(c, c, {}, left, "base");
    }
  }

  lemma Unfilled(c: seq<string>, left: set<string>)
    ensures Filling(c, c, {}, left)
  {
  }

  lemma FillWider(c: seq<string>, h: seq<string>, done: set<string>, left: set<string>, x: string)
    requires Filling(c, h, done, left) && x in c
    ensures Filling(c, h, done + {x}, left)
  {
  }

  lemma FillLast(c: seq<string>, h: seq<string>, done: set<string>, left: set<string>, x: string, after: string)
    requires Filling(c, h, done, left) && x !in done && after in h && (x in c || x in left)
    ensures Filling(c, AddBefore(h, x, after), done + {x}, left)
  {
    hide Insert, Others;
    assert x in c <==> multiset(c)[x] > 0;
    assert x in h <==> multiset(h)[x] > 0;
    if x !in h {
      FillInsert(c, h, done, left, Index(h, after), x);
    }
  }

  /** What the rewriting leaves out of account: conflicting hooks, and hooks that it adds. */
  function Changed(systemd: bool, hooks: seq<string>): set<string> {
    {Manager(!systemd), Encryption(!systemd)} + (set x | x in Required(systemd) && x !in hooks)
  }

  lemma CleanedIs(systemd: bool, hooks: seq<string>)
    ensures multiset(Cleaned(systemd, hooks)) ==
      multiset(hooks) - multiset{Manager(!systemd)} - multiset{Encryption(!systemd)}
    ensures Others(Cleaned(systemd, hooks), Changed(systemd, hooks)) == Others(hooks, Changed(systemd, hooks))
    ensures forall x :: x in Required(systemd) ==> (x in Cleaned(systemd, hooks) <==> x in hooks)
  {
    Names(systemd);
    hide Manager, Encryption, Remove, Others;
    var left := Changed(systemd, hooks);
    OthersRemove(hooks, Manager(!systemd), left);
    OthersRemove(Remove(hooks, Manager(!systemd)), Encryption(!systemd), left);
    forall x | x in Required(systemd)
      ensures x in Cleaned(systemd, hooks) <==> x in hooks
    {
      assert multiset(Cleaned(systemd, hooks))[x] == multiset(hooks)[x];
    }
  }

  /**
   For every list of hooks, with or without duplicates: each conflicting hook goes once, each required
   hook that is missing comes once, and every other hook occurs as often as it did.
   */
  lemma RewriteCounts(systemd: bool, hooks: seq<string>, x: string)
    ensures multiset(Rewritten(systemd, hooks))[x] ==
      if Conflicts(systemd, x) then (if x in hooks then multiset(hooks)[x] - 1 else 0)
      else if x in Required(systemd) && x !in hooks then 1
      else multiset(hooks)[x]
  {
    hide Manager, Encryption, Filled, Cleaned, Others, Required, Changed;
    ConflictsAreNotRequired(systemd);
    var c := Cleaned(systemd, hooks);
    CleanedIs(systemd, hooks);
    ChangedCovers(systemd, hooks);
    FilledIs(systemd, c, Changed(systemd, hooks));
    assert x in hooks <==> multiset(hooks)[x] > 0;
    assert x in c <==> multiset(c)[x] > 0;
  }

  lemma ConflictsAreNotRequired(systemd: bool)
    ensures Manager(!systemd) != Encryption(!systemd)
    ensures Manager(!systemd) !in Required(systemd) && Encryption(!systemd) !in Required(systemd)
  {
    Names(systemd);
  }

  lemma ChangedCovers(systemd: bool, hooks: seq<string>)
    ensures forall x :: x in Required(systemd) ==> x in Cleaned(systemd, hooks) || x in Changed(systemd, hooks)
  {
    hide Cleaned, Required;
    CleanedIs(systemd, hooks);
  }

  /** The hooks that neither go nor come stay in their order. */
  lemma RewriteKeepsOrder(systemd: bool, hooks: seq<string>)
    ensures Others(Rewritten(systemd, hooks), Changed(systemd, hooks)) == Others(hooks, Changed(systemd, hooks))
  {
    hide Filled, Cleaned, Others;
    CleanedIs(systemd, hooks);
    FilledIs(systemd, Cleaned(systemd, hooks), Changed(systemd, hooks));
  }

  lemma {:induction false} IndexIs(s: seq<string>, x: string, i: nat)
    requires i < |s| && s[i] == x && x !in s[..i]
    ensures x in s && Index(s, x) == i
    decreases i
  {
    if i > 0 {
      assert s[0] in s[..i];
      assert s[1..][..i - 1] == s[..i][1..];
      IndexIs(s[1..], x, i - 1);
    }
  }

  lemma PlacedBefore(k: seq<string>, x: string, after: string)
    requires x !in k && after in k
    ensures Index(AddBefore(k, x, after), x) + 1 == Index(AddBefore(k, x, after), after)
  {
    var i := Index(k, after);
    var result := AddBefore(k, x, after);
    assert result[..i + 1] == k[..i] + [x] && result[..i] == k[..i];
    IndexIs(result, x, i);
    IndexIs(result, after, i + 1);
  }

  /** The tool's own hook, when it is new, comes directly before the encryption hook. */
  lemma AutoComesBeforeEncryption(systemd: bool, hooks: seq<string>)
    requires AUTO !in hooks
    ensures AUTO in Rewritten(systemd, hooks) && Encryption(systemd) in Rewritten(systemd, hooks)
    ensures Index(Rewritten(systemd, hooks), AUTO) + 1 == Index(Rewritten(systemd, hooks), Encryption(systemd))
  {
    hide Prepared, Index, AddBefore, Encryption, AUTO, Cleaned;
    assert AUTO == Required(systemd)[6];
    CleanedIs(systemd, hooks);
    PreparedLacks(systemd, Cleaned(systemd, hooks));
    PlacedBefore(Prepared(systemd, Cleaned(systemd, hooks)), AUTO, Encryption(systemd));
  }

  lemma AfterAddsOnly(s: seq<string>, x: string, before: string, y: string)
    requires before in s && y != x && y !in s
    ensures y !in AddAfter(s, x, before)
  {
  }

  lemma PreparedLacks(systemd: bool, c: seq<string>)
    requires AUTO !in c
    ensures AUTO !in Prepared(systemd, c)
  {
    Names(systemd);
    var r := Required(systemd);
    assert forall i :: 0 <= i < 6 ==> r[i] != r[6];
    hide AddAfter, Manager, Encryption, AUTO;
    var h0 := Started(c);
    AfterAddsOnly(h0, r[1], r[0], r[6]);
    var h1 := AddAfter(h0, r[1], r[0]);
    AfterAddsOnly(h1, r[2], r[1], r[6]);
    var h2 := AddAfter(h1, r[2], r[1]);
    AfterAddsOnly(h2, r[3], r[2], r[6]);
    var h3 := AddAfter(h2, r[3], r[2]);
    AfterAddsOnly(h3, r[4], r[3], r[6]);
    AfterAddsOnly(AddAfter(h3, r[4], r[3]), r[5], r[4], r[6]);
  }

  lemma FullIsFilled(systemd: bool, hooks: seq<string>)
    requires forall x :: x in Required(systemd) ==> x in hooks
    ensures Filled(systemd, hooks) == hooks
  {
    var r := Required(systemd);
    assert forall i :: 0 <= i < 7 ==> r[i] in r;
  }

  /** Rewriting again changes nothing exactly when no conflicting hook was there twice. */
  lemma RewriteIsIdempotentExactly(systemd: bool, hooks: seq<string>)
    ensures Rewritten(systemd, Rewritten(systemd, hooks)) == Rewritten(systemd, hooks) <==>
      multiset(hooks)[Manager(!systemd)] <= 1 && multiset(hooks)[Encryption(!systemd)] <= 1
  {
    hide Manager, Encryption, Filled, Others, Required, Cleaned, Changed;
    var once := Rewritten(systemd, hooks);
    RewrittenHasRequired(systemd, hooks);
    ConflictsLeft(systemd, hooks);
    CleanedIs(systemd, once);
    FullIsFilled(systemd, Cleaned(systemd, once));
    CleanedSame(systemd, once);
  }

  lemma RewrittenHasRequired(systemd: bool, hooks: seq<string>)
    ensures forall x :: x in Required(systemd) ==> x in Rewritten(systemd, hooks)
  {
    ConflictsAreNotRequired(systemd);
    hide Manager, Encryption, Rewritten, Required;
    forall x | x in Required(systemd)
      ensures x in Rewritten(systemd, hooks)
    {
      RewriteCounts(systemd, hooks, x);
      Occurs(x, Rewritten(systemd, hooks));
      Occurs(x, hooks);
    }
  }

  lemma Occurs(x: string, s: seq<string>)
    ensures x in s <==> multiset(s)[x] > 0
  {
  }

  /** A conflicting hook that was there twice is still there once. */
  lemma ConflictsLeft(systemd: bool, hooks: seq<string>)
    ensures var m, e, once := Manager(!systemd), Encryption(!systemd), Rewritten(systemd, hooks);
      multiset(once)[m] == multiset(once)[e] == 0 <==> multiset(hooks)[m] <= 1 && multiset(hooks)[e] <= 1
  {
    hide Manager, Encryption, Rewritten, Required;
    var m, e := Manager(!systemd), Encryption(!systemd);
    RewriteCounts(systemd, hooks, m);
    RewriteCounts(systemd, hooks, e);
    Occurs(m, hooks);
    Occurs(e, hooks);
  }

  lemma CleanedSame(systemd: bool, s: seq<string>)
    ensures Cleaned(systemd, s) == s <==> multiset(s)[Manager(!systemd)] == 0 && multiset(s)[Encryption(!systemd)] == 0
  {
    hide Manager, Encryption;
    var m, e := Manager(!systemd), Encryption(!systemd);
    assert m in s <==> multiset(s)[m] > 0;
    assert e in s <==> multiset(s)[e] > 0;
  }
}
