/** Where the rewriting of the hooks puts the hooks that were missing, by their names. */
module HooksOrder {
  import opened Hooks

  /** `b` comes directly after `a`, at their first places. */
  predicate Follows(h: seq<string>, a: string, b: string) {
    a in h && b in h && Index(h, b) == Index(h, a) + 1
  }

  /** Where a hook is after another one is inserted. */
  lemma AfterInsert(h: seq<string>, at: nat, x: string, y: string)
    requires at <= |h| && y in h && x != y
    ensures y in Insert(h, at, x)
    ensures Index(Insert(h, at, x), y) == if Index(h, y) < at then Index(h, y) else Index(h, y) + 1
  {
    var r, i := Insert(h, at, x), Index(h, y);
    if i < at {
      assert r[..i] == h[..i];
      IndexIs(r, y, i);
    } else {
      assert r[..i + 1] == h[..at] + [x] + h[at..i];
      assert h[..i] == h[..at] + h[at..i];
      IndexIs(r, y, i + 1);
    }
  }

  lemma FollowsStays(h: seq<string>, a: string, b: string, x: string, before: string)
    requires Follows(h, a, b) && before in h && x != a && x != b && before != a
    ensures Follows(AddAfter(h, x, before), a, b)
  {
    hide Index, Insert;
    if x !in h {
      var at := Index(h, before) + 1;
      AfterInsert(h, at, x, a);
      AfterInsert(h, at, x, b);
      assert Index(h, before) != Index(h, a);
    }
  }

  lemma FollowsStaysBefore(h: seq<string>, a: string, b: string, x: string, after: string)
    requires Follows(h, a, b) && after in h && x != a && x != b && after != b
    ensures Follows(AddBefore(h, x, after), a, b)
  {
    hide Index, Insert;
    if x !in h {
      var at := Index(h, after);
      AfterInsert(h, at, x, a);
      AfterInsert(h, at, x, b);
      assert Index(h, after) != Index(h, b);
    }
  }

  lemma NewFollows(h: seq<string>, x: string, before: string)
    requires before in h && x !in h
    ensures Follows(AddAfter(h, x, before), before, x)
  {
    var i := Index(h, before);
    var r := AddAfter(h, x, before);
    AfterInsert(h, i + 1, x, before);
    assert r[..i + 1] == h[..i + 1] && r[i + 1] == x;
    IndexIs(r, x, i + 1);
  }

  // ---------------------------------------------------------------------------------------------
  // The hooks, one after the other
  // ---------------------------------------------------------------------------------------------

  /** The hooks up to `k` that were missing in `c` follow their forerunners; the later ones are still missing. */
  ghost predicate Placed(r: seq<string>, c: seq<string>, h: seq<string>, k: nat)
    requires k < 6 && |r| == 7
  {
    && r[k] in h
    && (forall i :: 1 <= i <= k && r[i] !in c ==> Follows(h, r[i - 1], r[i]))
    && (forall i :: k < i < 7 && r[i] !in c ==> r[i] !in h)
    && (forall y :: y in c ==> y in h)
  }

  predicate Different(r: seq<string>) {
    |r| == 7 && forall i, j :: 0 <= i < j < 7 ==> r[i] != r[j]
  }

  lemma PlacedStep(r: seq<string>, c: seq<string>, h: seq<string>, k: nat)
    requires k < 5 && Different(r) && Placed(r, c, h, k)
    ensures Placed(r, c, AddAfter(h, r[k + 1], r[k]), k + 1)
  {
    hide Index, Follows, AddAfter;
    var x := r[k + 1];
    var next := AddAfter(h, x, r[k]);
    forall i | 1 <= i <= k + 1 && r[i] !in c
      ensures Follows(next, r[i - 1], r[i])
    {
      if i <= k {
        FollowsStays(h, r[i - 1], r[i], x, r[k]);
      } else {
        NewFollows(h, x, r[k]);
      }
    }
    forall i | k + 1 < i < 7 && r[i] !in c
      ensures r[i] !in next
    {
      AfterAddsOnly(h, x, r[k], r[i]);
    }
  }

  lemma RequiredAreDifferent(systemd: bool)
    ensures Different(Required(systemd))
  {
    Names(systemd);
  }

  lemma StartedIsPlaced(systemd: bool, c: seq<string>)
    ensures Placed(Required(systemd), c, Started(c), 0)
  {
    RequiredAreDifferent(systemd);
    hide Manager, Encryption, AUTO;
    var r := Required(systemd);
    if "base" !in c {
      assert forall i :: 0 < i < 7 && r[i] !in c ==> r[i] !in Insert(c, 0, r[0]);
    }
  }

  lemma PreparedIsPlaced(systemd: bool, c: seq<string>)
    ensures Placed(Required(systemd), c, Prepared(systemd, c), 5)
  {
    RequiredAreDifferent(systemd);
    StartedIsPlaced(systemd, c);
    hide Manager, Encryption, AUTO, AddAfter, Started, Placed, Different;
    var r := Required(systemd);
    var h0 := Started(c);
    PlacedIsThere(r, c, h0, 0);
    PlacedStep(r, c, h0, 0);
    var h1 := AddAfter(h0, r[1], r[0]);
    PlacedStep(r, c, h1, 1);
    var h2 := AddAfter(h1, r[2], r[1]);
    PlacedStep(r, c, h2, 2);
    var h3 := AddAfter(h2, r[3], r[2]);
    PlacedStep(r, c, h3, 3);
    var h4 := AddAfter(h3, r[4], r[3]);
    PlacedStep(r, c, h4, 4);
  }

  lemma PlacedIsThere(r: seq<string>, c: seq<string>, h: seq<string>, k: nat)
    requires k < 6 && |r| == 7 && Placed(r, c, h, k)
    ensures r[k] in h
  {
  }

  /** The last hook goes before the encryption hook. */
  lemma LastIsPlaced(r: seq<string>, c: seq<string>, h: seq<string>)
    requires Different(r) && Placed(r, c, h, 5)
    ensures var last := AddBefore(h, r[6], r[5]);
      && (forall i :: 1 <= i < 5 && r[i] !in c ==> Follows(last, r[i - 1], r[i]))
      && (r[5] !in c && r[6] in c ==> Follows(last, r[4], r[5]))
      && (r[5] !in c && r[6] !in c ==> Follows(last, r[4], r[6]))
      && (r[6] !in c ==> Follows(last, r[6], r[5]))
  {
    hide Index, Follows, AddBefore, Insert;
    var last := AddBefore(h, r[6], r[5]);
    forall i | 1 <= i < 5 && r[i] !in c
      ensures Follows(last, r[i - 1], r[i])
    {
      FollowsStaysBefore(h, r[i - 1], r[i], r[6], r[5]);
    }
    if r[6] in c {
      PresentStays(h, r[6], r[5]);
    } else {
      NewPrecedes(h, r[6], r[5]);
      if r[5] !in c {
        BetweenFollows(h, r[4], r[5], r[6]);
      }
    }
  }

  lemma PresentStays(h: seq<string>, x: string, after: string)
    requires x in h && after in h
    ensures AddBefore(h, x, after) == h
  {
  }

  lemma NewPrecedes(h: seq<string>, x: string, after: string)
    requires x !in h && after in h
    ensures Follows(AddBefore(h, x, after), x, after)
  {
    PlacedBefore(h, x, after);
  }

  lemma BetweenFollows(h: seq<string>, a: string, b: string, x: string)
    requires Follows(h, a, b) && x !in h
    ensures Follows(AddBefore(h, x, b), a, x)
  {
    var i := Index(h, b);
    var r := AddBefore(h, x, b);
    AfterInsert(h, i, x, a);
    assert r[..i] == h[..i] && r[i] == x;
    IndexIs(r, x, i);
  }

  lemma BaseIsFirst(systemd: bool, c: seq<string>)
    requires "base" !in c
    ensures Filled(systemd, c) != [] && Filled(systemd, c)[0] == "base"
  {
    RequiredAreDifferent(systemd);
    hide Manager, Encryption, AUTO, AddAfter, AddBefore;
    var r := Required(systemd);
    var h0 := Started(c);
    assert h0 == Insert(c, 0, "base") && h0[0] == "base";
    FirstStays(h0, r[1], r[0]);
    var h1 := AddAfter(h0, r[1], r[0]);
    FirstStays(h1, r[2], r[1]);
    var h2 := AddAfter(h1, r[2], r[1]);
    FirstStays(h2, r[3], r[2]);
    var h3 := AddAfter(h2, r[3], r[2]);
    FirstStays(h3, r[4], r[3]);
    var h4 := AddAfter(h3, r[4], r[3]);
    FirstStays(h4, r[5], r[4]);
    FirstStaysBefore(AddAfter(h4, r[5], r[4]), r[6], r[5]);
  }

  lemma FirstStays(h: seq<string>, x: string, before: string)
    requires before in h
    ensures AddAfter(h, x, before) != [] && AddAfter(h, x, before)[0] == h[0]
  {
  }

  lemma FirstStaysBefore(h: seq<string>, x: string, after: string)
    requires after in h && h[0] != after
    ensures AddBefore(h, x, after) != [] && AddBefore(h, x, after)[0] == h[0]
  {
  }

  // ---------------------------------------------------------------------------------------------
  // By name
  // ---------------------------------------------------------------------------------------------

  const SYSTEMD: seq<string> :=
    ["base", "systemd", "autodetect", "modconf", "block", "sd-encrypt", "auto_tpm_encrypt"]
  const BUSYBOX: seq<string> :=
    ["base", "udev", "autodetect", "modconf", "block", "encrypt", "auto_tpm_encrypt"]

  /** The hooks of the two kinds of boot image, in their order. */
  function Chain(systemd: bool): (r: seq<string>)
    ensures |r| == 7
  {
    if systemd then SYSTEMD else BUSYBOX
  }

  lemma ChainIsRequired(systemd: bool)
    ensures Chain(systemd) == Required(systemd)
    ensures Chain(systemd)[0] == "base" && Chain(systemd)[6] == AUTO
  {
  }

  /**
   A missing hook comes directly after the one before it in the chain, and the tool's own one directly
   before the encryption hook, between it and its forerunner when both are new; a new `base` is the first.
   */
  lemma NewHooksAreInPlace(systemd: bool, hooks: seq<string>)
    ensures var h, r := Rewritten(systemd, hooks), Chain(systemd);
      && (r[0] !in hooks ==> h != [] && h[0] == r[0])
      && (forall i :: 1 <= i < 5 && r[i] !in hooks ==> Follows(h, r[i - 1], r[i]))
      && (r[5] !in hooks ==> Follows(h, r[4], if r[6] in hooks then r[5] else r[6]))
      && (r[6] !in hooks ==> Follows(h, r[6], r[5]))
  {
    hide Index, Follows, Manager, Encryption, AddBefore, Cleaned, Chain, Started, Prepared, AUTO;
    ChainIsRequired(systemd);
    RequiredAreDifferent(systemd);
    CleanedIs(systemd, hooks);
    var c, r := Cleaned(systemd, hooks), Chain(systemd);
    assert forall i :: 0 <= i < 7 ==> r[i] in Required(systemd);
    PreparedIsPlaced(systemd, c);
    LastIsPlaced(r, c, Prepared(systemd, c));
    if r[0] !in hooks {
      BaseIsFirst(systemd, c);
    }
  }

  /** Which hooks conflict, and which are required. */
  lemma HooksByName(systemd: bool, x: string)
    ensures Conflicts(systemd, x) <==>
      x == (if systemd then "udev" else "systemd") || x == (if systemd then "encrypt" else "sd-encrypt")
    ensures x in Required(systemd) <==> x in Chain(systemd)
  {
  }
}
