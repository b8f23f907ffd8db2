/** What a completed encryption and a completed decryption leave, and when they come to their end. */
module LuksOutcomes {
  import opened Core
  import opened Luks
  import opened LuksSafety
  import opened LuksRuns
  import opened LuksTheorems

  /** No partition is named twice. */
  predicate Distinct(parts: seq<Part>) {
    forall i, j :: 0 <= i < j < |parts| ==> parts[i] != parts[j]
  }

  // ---------------------------------------------------------------------------------------------
  // Decrypting one partition
  // ---------------------------------------------------------------------------------------------

  lemma WithSlotsTwice(s: State, p: Part, a: multiset<Slot>, b: multiset<Slot>)
    requires IsLocked(s, p)
    ensures WithSlots(WithSlots(s, p, a), p, b) == WithSlots(s, p, b)
  {
    var v := s.vols[p].uuid;
    assert s.vols[p := Locked(v, a)][p := Locked(v, b)] == s.vols[p := Locked(v, b)];
  }

  /** The removal loop takes all blank passwords of the partition and nothing else. */
  lemma {:induction false} RemovalsLeave(s: State, p: Part)
    ensures Removals(s, p).done <==> IsLocked(s, p)
    ensures IsLocked(s, p) ==> End(s, Removals(s, p)) == WithSlots(s, p, s.vols[p].slots[Blank := 0])
    decreases if IsLocked(s, p) then s.vols[p].slots[Blank] else 0
  {
    if HasBlank(s, p) {
      var fewer := s.vols[p].slots - multiset{Blank};
      var next := WithSlots(s, p, fewer);
      RemovalsLeave(next, p);
      EndOfCons(s, next, Removals(next, p));
      assert fewer[Blank := 0] == s.vols[p].slots[Blank := 0];
      WithSlotsTwice(s, p, fewer, s.vols[p].slots[Blank := 0]);
    } else if IsLocked(s, p) {
      assert s.vols[p].slots[Blank := 0] == s.vols[p].slots;
      assert s.vols[p := s.vols[p]] == s.vols;
    }
  }

  /** The partition opens with this key, and with nothing else but blank passwords. */
  predicate OnlyKey(s: State, p: Part, key: nat) {
    HasKey(s, p, key) && forall x :: x in s.vols[p].slots ==> x == Key(key) || x == Blank
  }

  function Plained(s: State, p: Part): State {
    s.(vols := s.vols[p := Plain])
  }

  lemma ConvertAndDecrypt(l: Layout, p: Part, key: nat, s: State)
    requires IsLocked(s, p) && Blank !in s.vols[p].slots
    ensures var r := Run(l, [ConvertSlots(p, key), DecryptPart(p, key)], s);
      (r.done <==> OnlyKey(s, p, key)) && (r.done ==> End(s, r) == Plained(s, p))
  {
    hide Run, Cleared;
    Nothing(l, Plained(s, p));
    Cons(l, DecryptPart(p, key), [], s);
    Cons(l, ConvertSlots(p, key), [DecryptPart(p, key)], s);
    assert [DecryptPart(p, key)] + [] == [DecryptPart(p, key)];
    assert [ConvertSlots(p, key)] + [DecryptPart(p, key)] == [ConvertSlots(p, key), DecryptPart(p, key)];
    AnySlot(s.vols[p].slots, key);
  }

  lemma AnySlot(slots: multiset<Slot>, key: nat)
    ensures |slots| > 0 && (forall x :: x in slots ==> x == Key(key)) ==> Key(key) in slots
    ensures Key(key) in slots ==> |slots| > 0
  {
    if |slots| > 0 {
      var x :| x in slots;
    }
  }

  lemma OnlyKeyIgnoresBlanks(s: State, p: Part, key: nat)
    requires IsLocked(s, p)
    ensures OnlyKey(WithSlots(s, p, s.vols[p].slots[Blank := 0]), p, key) <==> OnlyKey(s, p, key)
  {
    var some, all := s.vols[p].slots[Blank := 0], s.vols[p].slots;
    assert forall x :: x in some <==> x in all && x != Blank;
  }

  lemma StripLeaves(l: Layout, p: Part, key: nat, s: State)
    ensures var r := Run(l, Strip(p, key), s);
      (r.done <==> OnlyKey(s, p, key)) && (r.done ==> End(s, r) == Plained(s, p))
  {
    hide Run, Cleared, Removals;
    var more := [ConvertSlots(p, key), DecryptPart(p, key)];
    RemovalsLeave(s, p);
    Cons(l, RemoveBlanks(p), more, s);
    assert [RemoveBlanks(p)] + more == Strip(p, key);
    if IsLocked(s, p) {
      var t := WithSlots(s, p, s.vols[p].slots[Blank := 0]);
      ConvertAndDecrypt(l, p, key, t);
      OnlyKeyIgnoresBlanks(s, p, key);
      assert t.vols[p := Plain] == s.vols[p := Plain];
      EndOfChain(s, Removals(s, p), Run(l, more, t));
    }
  }

  // ---------------------------------------------------------------------------------------------
  // Decrypting them all
  // ---------------------------------------------------------------------------------------------

  function Addresses(script: Option<nat>): set<nat> {
    if script.Some? then {script.value} else {}
  }

  /** Neither the unsealing script nor the hook nor the sealed object is there any more. */
  function Cleaned(script: Option<nat>, s: State): State {
    s.(script := None, hook := false, tpm := s.tpm - Addresses(script))
  }

  lemma RemoveFilesLeave(l: Layout, s: State)
    ensures var r := Run(l, [RemoveScript, RemoveHook], s); r.done && End(s, r) == s.(script := None, hook := false)
  {
    hide Run, Cleared;
    var s1 := s.(script := None);
    Nothing(l, s1.(hook := false));
    Cons(l, RemoveHook, [], s1);
    Cons(l, RemoveScript, [RemoveHook], s);
    assert [RemoveHook] + [] == [RemoveHook];
    assert [RemoveScript] + [RemoveHook] == [RemoveScript, RemoveHook];
  }

  lemma CleanUpLeaves(l: Layout, script: Option<nat>, s: State)
    ensures var r := Run(l, CleanUp(script), s);
      (r.done <==> Addresses(script) <= s.tpm.Keys) && (r.done ==> End(s, r) == Cleaned(script, s))
  {
    hide Run, Cleared;
    if script.Some? {
      var a := script.value;
      var t := s.(tpm := s.tpm - {a});
      RemoveFilesLeave(l, t);
      Cons(l, Evict(a, false), [RemoveScript, RemoveHook], s);
      EndOfChain(s, Trace([t], true), Run(l, [RemoveScript, RemoveHook], t));
    } else {
      RemoveFilesLeave(l, s);
      assert [] + [RemoveScript, RemoveHook] == [RemoveScript, RemoveHook];
      assert s.tpm - {} == s.tpm;
    }
  }

  /** From `s` to `t`, the partitions are plain and no other has changed; nor has what is in no partition. */
  ghost predicate AllPlain(parts: seq<Part>, s: State, t: State) {
    && (forall p :: p in parts ==> p in s.vols && p in t.vols && t.vols[p] == Plain)
    && (forall p :: p !in parts ==> (p in t.vols <==> p in s.vols) && (p in s.vols ==> t.vols[p] == s.vols[p]))
    && t == s.(vols := t.vols, script := t.script, hook := t.hook, tpm := t.tpm)
  }

  /** What becomes of the files of root and of the sealed object. */
  predicate RootCleaned(s: State, t: State, script: Option<nat>) {
    t.script == None && !t.hook && t.tpm == s.tpm - Addresses(script)
  }

  predicate SameFiles(s: State, t: State) {
    t.script == s.script && t.hook == s.hook && t.tpm == s.tpm
  }

  lemma OneTurn(l: Layout, p: Part, key: nat, script: Option<nat>, s: State)
    ensures var r := Run(l, StripSteps(l, p, key, script), s);
      && (r.done <==> OnlyKey(s, p, key) && (p == l.root ==> Addresses(script) <= s.tpm.Keys))
      && (r.done ==> End(s, r) == if p == l.root then Cleaned(script, Plained(s, p)) else Plained(s, p))
  {
    hide Run, Cleared, CleanUp, OnlyKey, Cleaned, Addresses;
    var strip, clean := Strip(p, key), if p == l.root then CleanUp(script) else [];
    var t := Plained(s, p);
    StripLeaves(l, p, key, s);
    Concat(l, strip, clean, s);
    CleanUpLeaves(l, script, t);
    Nothing(l, t);
    if Run(l, strip, s).done {
      EndOfChain(s, Run(l, strip, s), Run(l, clean, t));
    }
  }

  lemma OtherKeysStay(s: State, t: State, p: Part, key: nat)
    requires t.vols == s.vols[p := Plain]
    ensures !OnlyKey(t, p, key) && forall q :: q != p ==> (OnlyKey(t, q, key) <==> OnlyKey(s, q, key))
  {
  }

  lemma {:induction false} DecryptPartsLeave(l: Layout, parts: seq<Part>, key: nat, script: Option<nat>, s: State)
    ensures var r := Run(l, DecryptParts(l, parts, key, script), s);
      && (r.done <==>
          && Distinct(parts) && (forall p :: p in parts ==> OnlyKey(s, p, key))
          && (l.root in parts ==> Addresses(script) <= s.tpm.Keys))
      && (r.done ==> AllPlain(parts, s, End(s, r)))
      && (r.done ==> if l.root in parts then RootCleaned(s, End(s, r), script) else SameFiles(s, End(s, r)))
    decreases |parts|
  {
    hide Run, Cleared, OnlyKey, StripSteps, Addresses;
    if parts == [] {
      Nothing(l, s);
    } else {
      var p, rest := parts[0], parts[1..];
      var turn, tail := StripSteps(l, p, key, script), DecryptParts(l, rest, key, script);
      OneTurn(l, p, key, script, s);
      Concat(l, turn, tail, s);
      assert parts == [p] + rest;
      FirstIsDistinct(p, rest);
      var t := if p == l.root then Cleaned(script, Plained(s, p)) else Plained(s, p);
      OtherKeysStay(s, t, p, key);
      DecryptPartsLeave(l, rest, key, script, t);
      if Run(l, turn, s).done {
        EndOfChain(s, Run(l, turn, s), Run(l, tail, t));
        if Run(l, tail, t).done {
          assert p in s.vols by {
            OnlyKeyHasKey(s, p, key);
          }
          OneMorePlain(p, rest, s, t, End(t, Run(l, tail, t)));
        }
      }
    }
  }

  lemma OneMorePlain(p: Part, rest: seq<Part>, s: State, t: State, u: State)
    requires p in s.vols && p !in rest && AllPlain(rest, t, u)
    requires t == s.(vols := s.vols[p := Plain], script := t.script, hook := t.hook, tpm := t.tpm)
    ensures AllPlain([p] + rest, s, u)
  {
  }

  lemma FirstIsDistinct(p: Part, rest: seq<Part>)
    ensures Distinct([p] + rest) <==> p !in rest && Distinct(rest)
  {
    var parts := [p] + rest;
    assert forall i :: 0 <= i < |rest| ==> parts[i + 1] == rest[i];
    if p in rest {
      var i :| 0 <= i < |rest| && rest[i] == p;
      assert parts[0] == parts[i + 1];
    }
    if Distinct(parts) {
      forall i, j | 0 <= i < j < |rest|
        ensures rest[i] != rest[j]
      {
        assert parts[i + 1] != parts[j + 1];
      }
    }
  }

  /**
   When a decryption comes to its end, and what it leaves: every partition of the system is plain, the
   unsealing script, the hook and the sealed object are gone, and nothing else has changed.
   */
  lemma DecryptionLeaves(l: Layout, key: nat, s: State)
    ensures var r := Run(l, Program(l, Decrypt(key), s), s);
      && (r.done <==>
          && Accepted(l, s, true) && Distinct(Parts(l)) && (forall p :: p in Parts(l) ==> OnlyKey(s, p, key))
          && (s.script.Some? ==> s.script.value in s.tpm))
    ensures var r := Run(l, Program(l, Decrypt(key), s), s);
      r.done ==> (
        var t := End(s, r);
        && AllPlain(Parts(l), s, t) && t.script == None && !t.hook
        && t.tpm == s.tpm - (if s.script.Some? then {s.script.value} else {}))
  {
    hide Run, Cleared, DecryptParts, OnlyKey, AllPlain, Distinct;
    DieRuns(l, s);
    if Accepted(l, s, true) {
      var steps := DecryptParts(l, Parts(l), key, s.script);
      DecryptPartsLeave(l, Parts(l), key, s.script, s);
      Cons(l, OpenWith(l.root, key), steps, s);
      EndOfChain(s, Trace([s], true), Run(l, steps, s));
      OnlyKeyHasKey(s, l.root, key);
      assert l.root in Parts(l);
    }
  }

  lemma OnlyKeyHasKey(s: State, p: Part, key: nat)
    ensures OnlyKey(s, p, key) ==> HasKey(s, p, key)
  {
  }

  // ---------------------------------------------------------------------------------------------
  // Encryption up to root
  // ---------------------------------------------------------------------------------------------

  /** From `s` to `t`, the plain partitions were locked with the blank password and the key. */
  ghost predicate AllLocked(parts: seq<Part>, key: nat, s: State, t: State) {
    && (forall p :: p in parts ==> IsPlain(s, p) && IsLocked(t, p) && t.vols[p].slots == multiset{Blank, Key(key)})
    && (forall p :: p !in parts ==> (p in t.vols <==> p in s.vols) && (p in s.vols ==> t.vols[p] == s.vols[p]))
    && t == s.(vols := t.vols, clock := t.clock)
  }

  lemma OneMoreLocked(p: Part, rest: seq<Part>, key: nat, s: State, u: State)
    requires IsPlain(s, p) && p !in rest && AllLocked(rest, key, LockedState(s, p, key), u)
    ensures AllLocked([p] + rest, key, s, u)
  {
  }

  lemma {:induction false} LocksLeave(l: Layout, parts: seq<Part>, key: nat, script: Option<nat>, free: nat, s: State)
    requires l.root !in parts
    ensures var r := Run(l, EncryptParts(l, parts, key, script, free), s);
      && (r.done <==> Distinct(parts) && forall p :: p in parts ==> IsPlain(s, p))
      && (r.done ==> AllLocked(parts, key, s, End(s, r)))
    decreases |parts|
  {
    hide Run, Cleared, Lock, AutoSetup, Distinct;
    if parts == [] {
      Nothing(l, s);
      NoneIsDistinct();
    } else {
      var p, rest := parts[0], parts[1..];
      var t, tail := LockedState(s, p, key), EncryptParts(l, rest, key, script, free);
      assert EncryptParts(l, parts, key, script, free) == Lock(p, key) + tail;
      LockLeaves(l, p, key, s);
      Concat(l, Lock(p, key), tail, s);
      assert parts == [p] + rest;
      FirstIsDistinct(p, rest);
      LocksLeave(l, rest, key, script, free, t);
      if IsPlain(s, p) {
        assert !IsPlain(t, p) && forall q :: q != p ==> (IsPlain(t, q) <==> IsPlain(s, q));
        EndOfChain(s, Run(l, Lock(p, key), s), Run(l, tail, t));
        if Run(l, tail, t).done {
          OneMoreLocked(p, rest, key, s, End(t, Run(l, tail, t)));
        }
      }
    }
  }

  lemma NoneIsDistinct()
    ensures Distinct([])
  {
  }

  lemma {:induction false} EncryptPartsJoin(l: Layout, a: seq<Part>, b: seq<Part>, key: nat, script: Option<nat>,
                                            free: nat)
    ensures EncryptParts(l, a + b, key, script, free) ==
      EncryptParts(l, a, key, script, free) + EncryptParts(l, b, key, script, free)
    decreases |a|
  {
    hide LockSteps;
    if a == [] {
      assert a + b == b;
      assert [] + EncryptParts(l, b, key, script, free) == EncryptParts(l, b, key, script, free);
    } else {
      assert (a + b)[1..] == a[1..] + b;
      EncryptPartsJoin(l, a[1..], b, key, script, free);
    }
  }

  // ---------------------------------------------------------------------------------------------
  // The set up from the encrypted root
  // ---------------------------------------------------------------------------------------------

  lemma SealLeaves(l: Layout, script: Option<nat>, free: nat, s: State)
    requires s.keyFile.Some?
    ensures var r := Run(l, SealSteps(script, free), s);
      && (r.done <==> script.Some? || free !in s.tpm)
      && (r.done ==> End(s, r) == s.(tpm := s.tpm[AddressOf(script, free) := Sealed(s.keyFile.value, Measured(s))]))
  {
    hide Run, Cleared;
    var a := AddressOf(script, free);
    var gone := s.(tpm := s.tpm - {a});
    var next := s.(tpm := s.tpm[a := Sealed(s.keyFile.value, Measured(s))]);
    Nothing(l, next);
    Cons(l, Seal(a), [], s);
    Cons(l, Seal(a), [], gone);
    Cons(l, Evict(a, true), [Seal(a)], s);
    assert [Seal(a)] + [] == [Seal(a)];
    assert [Evict(a, true)] + [Seal(a)] == [Evict(a, true), Seal(a)];
    assert (s.tpm - {a})[a := Sealed(s.keyFile.value, Measured(s))] == next.tpm;
  }

  function MoreBlanks(slots: multiset<Slot>, n: nat): multiset<Slot> {
    slots[Blank := slots[Blank] + n]
  }

  /** From `s` to `t`, the locked partition got `n` more blank passwords. */
  predicate Blanked(s: State, t: State, p: Part, n: nat) {
    IsLocked(s, p) && p in t.vols && t.vols[p] == Locked(s.vols[p].uuid, MoreBlanks(s.vols[p].slots, n))
  }

  /** From `s` to `t`, the locked partitions got one more blank password for each time they are named. */
  ghost predicate AllBlanked(parts: seq<Part>, s: State, t: State) {
    && (forall p :: p in parts ==> Blanked(s, t, p, multiset(parts)[p]))
    && (forall p :: p !in parts ==> (p in t.vols <==> p in s.vols) && (p in s.vols ==> t.vols[p] == s.vols[p]))
    && t == s.(vols := t.vols)
  }

  function BlankAdded(s: State, p: Part): State
    requires IsLocked(s, p)
  {
    WithSlots(s, p, s.vols[p].slots + multiset{Blank})
  }

  lemma OneMoreBlanked(p: Part, rest: seq<Part>, s: State, u: State)
    requires IsLocked(s, p) && AllBlanked(rest, BlankAdded(s, p), u)
    ensures AllBlanked([p] + rest, s, u)
  {
    hide Blanked, BlankAdded;
    OthersStay(s, p);
    forall q | q in [p] + rest
      ensures Blanked(s, u, q, multiset([p] + rest)[q])
    {
      BlankedOnceMore(s, u, p, q, multiset(rest)[q]);
      TimesNamed(p, rest, q);
    }
  }

  lemma OthersStay(s: State, p: Part)
    requires IsLocked(s, p)
    ensures var t := BlankAdded(s, p);
      t == s.(vols := t.vols) && p in t.vols
      && forall q :: q != p ==> (q in t.vols <==> q in s.vols) && (q in s.vols ==> t.vols[q] == s.vols[q])
  {
  }

  lemma BlankedOnceMore(s: State, u: State, p: Part, q: Part, n: nat)
    requires IsLocked(s, p)
    ensures Blanked(BlankAdded(s, p), u, q, n) ==> Blanked(s, u, q, if q == p then n + 1 else n)
    ensures p in u.vols && u.vols[p] == BlankAdded(s, p).vols[p] ==> Blanked(s, u, p, 1)
  {
    hide MoreBlanks;
    OneMoreBlank(s.vols[p].slots, n);
  }

  lemma TimesNamed(p: Part, rest: seq<Part>, q: Part)
    ensures multiset([p] + rest)[q] == (if q == p then 1 else 0) + multiset(rest)[q]
    ensures q !in rest ==> multiset(rest)[q] == 0
  {
    assert multiset([p] + rest) == multiset{p} + multiset(rest);
  }

  lemma OneMoreBlank(slots: multiset<Slot>, n: nat)
    ensures MoreBlanks(slots + multiset{Blank}, n) == MoreBlanks(slots, n + 1)
    ensures MoreBlanks(slots, 1) == slots + multiset{Blank} && MoreBlanks(slots, 0) == slots
  {
  }

  lemma NoneBlanked(s: State)
    ensures AllBlanked([], s, s)
  {
  }

  lemma AddBlankWorks(l: Layout, s: State, p: Part)
    requires s.keyFile.Some? && HasKey(s, p, s.keyFile.value)
    ensures Effect(l, AddBlank(p, None), s) == Some(BlankAdded(s, p))
  {
  }

  lemma {:induction false} BlanksLeave(l: Layout, parts: seq<Part>, s: State)
    requires s.keyFile.Some? && forall p :: p in parts ==> HasKey(s, p, s.keyFile.value)
    ensures Run(l, AddBlanks(parts), s).done && AllBlanked(parts, s, End(s, Run(l, AddBlanks(parts), s)))
    decreases |parts|
  {
    hide Run, Cleared, AllBlanked, Effect;
    if parts == [] {
      Nothing(l, s);
      NoneBlanked(s);
    } else {
      var p, rest := parts[0], parts[1..];
      assert parts == [p] + rest && p in parts;
      var t := BlankAdded(s, p);
      AddBlankWorks(l, s, p);
      AddedSlots(s, p, multiset{Blank});
      BlanksLeave(l, rest, t);
      Cons(l, AddBlank(p, None), AddBlanks(rest), s);
      EndOfChain(s, Trace([t], true), Run(l, AddBlanks(rest), t));
      OneMoreBlanked(p, rest, s, End(t, Run(l, AddBlanks(rest), t)));
    }
  }

  lemma FinishLeaves(l: Layout, a: nat, s: State)
    requires forall p :: p in Parts(l) ==> IsLocked(s, p)
    ensures var r := Run(l, Finish(a), s);
      && r.done
      && End(s, r) == s.(script := Some(a), hook := true, installed := Some(Image(s.clock, Uuids(l, s), a)),
                         clock := s.clock + 1)
  {
    hide Parts, Run, Cleared;
    var s1 := s.(script := Some(a));
    var s2 := s1.(hook := true);
    assert Uuids(l, s2) == Uuids(l, s);
    Nothing(l, s2.(installed := Some(Image(s.clock, Uuids(l, s), a)), clock := s.clock + 1));
    Cons(l, InstallImage(a), [], s2);
    Cons(l, WriteHook, [InstallImage(a)], s1);
    Cons(l, WriteScript(a), [WriteHook, InstallImage(a)], s);
    assert [InstallImage(a)] + [] == [InstallImage(a)];
    assert [WriteHook] + [InstallImage(a)] == [WriteHook, InstallImage(a)];
    assert [WriteScript(a)] + [WriteHook, InstallImage(a)] == Finish(a);
  }

  /** A set up without a user: what it leaves of the files, of the TPM and of the boot image. */
  ghost predicate SetUp(l: Layout, key: nat, a: nat, s: State, t: State) {
    && t == s.(vols := t.vols, keyFile := Some(key), tpm := s.tpm[a := Sealed(key, Measured(s))], script := Some(a),
               hook := true, installed := Some(Image(s.clock, Uuids(l, t), a)), clock := s.clock + 1)
    && AllBlanked(Parts(l), s, s.(vols := t.vols))
  }

  /** Sealing and the blank passwords. */
  lemma BlanksAfterSeal(l: Layout, key: nat, free: nat, s: State)
    requires forall p :: p in Parts(l) ==> HasKey(s, p, key)
    requires s.keyFile == Some(key)
    ensures var r := Run(l, SealSteps(s.script, free) + AddBlanks(Parts(l)), s);
      var u := End(s, r);
      && (r.done <==> s.script.Some? || free !in s.tpm)
      && (r.done ==>
          && u == s.(vols := u.vols, tpm := s.tpm[AddressOf(s.script, free) := Sealed(key, Measured(s))])
          && AllBlanked(Parts(l), s, s.(vols := u.vols)))
  {
    hide Run, Cleared, Parts, Distinct, AddBlanks, SealSteps, AllBlanked;
    var sealing, blanks := SealSteps(s.script, free), AddBlanks(Parts(l));
    SealLeaves(l, s.script, free, s);
    Concat(l, sealing, blanks, s);
    if Run(l, sealing, s).done {
      var t := s.(tpm := s.tpm[AddressOf(s.script, free) := Sealed(key, Measured(s))]);
      assert forall p :: p in Parts(l) ==> HasKey(t, p, key);
      BlanksLeave(l, Parts(l), t);
      EndOfChain(s, Run(l, sealing, s), Run(l, blanks, t));
      BlankedElsewhere(Parts(l), s, t, End(t, Run(l, blanks, t)));
    }
  }

  /** The blank passwords do not depend on what is in the TPM. */
  lemma BlankedElsewhere(parts: seq<Part>, s: State, t: State, u: State)
    requires t == s.(tpm := t.tpm) && AllBlanked(parts, t, u)
    ensures AllBlanked(parts, s, s.(vols := u.vols)) && u == t.(vols := u.vols)
  {
  }

  lemma BlankedAreLocked(parts: seq<Part>, s: State, t: State)
    requires AllBlanked(parts, s, t)
    ensures forall p :: p in parts ==> IsLocked(t, p)
  {
  }

  lemma AutoSetupLeaves(l: Layout, key: nat, free: nat, s: State)
    requires forall p :: p in Parts(l) ==> HasKey(s, p, key)
    requires s.keyFile == Some(key)
    ensures var r := Run(l, AutoSetup(l, s.script, free), s);
      && (r.done <==> s.script.Some? || free !in s.tpm)
      && (r.done ==> SetUp(l, key, AddressOf(s.script, free), s, End(s, r)))
  {
    hide Run, Cleared, Parts, Distinct, AddBlanks, SealSteps, Finish, Uuids, AllBlanked;
    var a, first := AddressOf(s.script, free), SealSteps(s.script, free) + AddBlanks(Parts(l));
    BlanksAfterSeal(l, key, free, s);
    Concat(l, first, Finish(a), s);
    if Run(l, first, s).done {
      var u := End(s, Run(l, first, s));
      BlankedAreLocked(Parts(l), s, s.(vols := u.vols));
      FinishLeaves(l, a, u);
      var t := End(u, Run(l, Finish(a), u));
      EndOfChain(s, Run(l, first, s), Run(l, Finish(a), u));
      SameVolumesSameUuids(l, u, t);
    }
  }

  lemma RootTurn(l: Layout, key: nat, free: nat, s: State)
    requires forall p :: p in Parts(l) ==> HasKey(s, p, key)
    ensures var r := Run(l, [CopyKey(key)] + AutoSetup(l, s.script, free), s);
      && (r.done <==> s.script.Some? || free !in s.tpm)
      && (r.done ==> SetUp(l, key, AddressOf(s.script, free), s, End(s, r)))
  {
    hide Run, Cleared, Parts, Distinct, AutoSetup, SetUp;
    var t := s.(keyFile := Some(key));
    Cons(l, CopyKey(key), AutoSetup(l, s.script, free), s);
    AutoSetupLeaves(l, key, free, t);
    var r := Run(l, AutoSetup(l, s.script, free), t);
    EndOfChain(s, Trace([t], true), r);
    if r.done {
      KeyFileFirst(l, key, AddressOf(s.script, free), s, End(t, r));
    }
  }

  lemma KeyFileFirst(l: Layout, key: nat, a: nat, s: State, t: State)
    requires SetUp(l, key, a, s.(keyFile := Some(key)), t)
    ensures SetUp(l, key, a, s, t)
  {
    hide Parts, Uuids;
  }

  lemma SameVolumesSameUuids(l: Layout, s: State, t: State)
    requires s.vols == t.vols
    ensures Uuids(l, s) == Uuids(l, t)
  {
  }

  /** Locked with two blank passwords and the key, where the partition was plain. */
  ghost predicate Encrypted(parts: seq<Part>, key: nat, s: State, t: State) {
    && (forall p :: p in parts ==>
          (IsPlain(s, p) && IsLocked(t, p) && t.vols[p].slots == multiset{Blank, Blank, Key(key)}))
    && (forall p :: p !in parts ==> (p in t.vols <==> p in s.vols) && (p in s.vols ==> t.vols[p] == s.vols[p]))
  }

  lemma LockedAndBlanked(parts: seq<Part>, key: nat, s: State, t: State, u: State)
    requires AllLocked(parts, key, s, t) && AllBlanked(parts, t, u) && Distinct(parts)
    ensures Encrypted(parts, key, s, u)
  {
    OneMoreBlank(multiset{Blank, Key(key)}, 0);
    assert multiset{Blank, Key(key)} + multiset{Blank} == multiset{Blank, Blank, Key(key)};
    forall p | p in parts
      ensures multiset(parts)[p] == 1
    {
      NamedOnce(parts, p);
    }
  }

  lemma {:induction false} NamedOnce(parts: seq<Part>, p: Part)
    requires Distinct(parts)
    ensures multiset(parts)[p] == if p in parts then 1 else 0
    decreases |parts|
  {
    hide Distinct;
    if parts != [] {
      assert parts == [parts[0]] + parts[1..];
      FirstIsDistinct(parts[0], parts[1..]);
      NamedOnce(parts[1..], p);
    }
  }

  lemma AllLockedHaveKeys(parts: seq<Part>, key: nat, s: State, t: State)
    requires AllLocked(parts, key, s, t)
    ensures forall p :: p in parts ==> HasKey(t, p, key)
  {
  }

  lemma RootAfterOthers(l: Layout, init: seq<Part>, key: nat, s: State, t: State)
    requires AllLocked(init, key, s, t) && IsPlain(t, l.root) && l.root !in init
    requires forall p :: p in Parts(l) <==> p in init + [l.root]
    ensures AllLocked(Parts(l), key, s, LockedState(t, l.root, key))
  {
    hide Parts;
  }

  lemma LastStep(l: Layout, key: nat, script: Option<nat>, free: nat)
    ensures EncryptParts(l, [l.root], key, script, free) ==
      Lock(l.root, key) + ([CopyKey(key)] + AutoSetup(l, script, free))
  {
    hide AutoSetup, Lock;
    assert [l.root][1..] == [];
    assert EncryptParts(l, [l.root], key, script, free) == LockSteps(l, l.root, key, script, free) + [];
  }

  /** The other partitions in the order of encryption. */
  function Before(l: Layout): seq<Part> {
    Maybe(l.varPart) + Maybe(l.home)
  }

  lemma OrderOfParts(l: Layout)
    requires l.home != Some(l.root) && l.varPart != Some(l.root)
    ensures EncryptOrder(l) == Before(l) + [l.root] && l.root !in Before(l)
    ensures forall p :: p in Parts(l) <==> p in Before(l) + [l.root]
    ensures Distinct(Parts(l)) <==> Distinct(Before(l))
  {
    var rest := Maybe(l.home) + Maybe(l.varPart);
    assert Parts(l) == [l.root] + rest;
    FirstIsDistinct(l.root, rest);
    if l.home.Some? && l.varPart.Some? {
      var h, v := l.home.value, l.varPart.value;
      assert rest == [h] + [v] && Before(l) == [v] + [h];
      FirstIsDistinct(h, [v]);
      FirstIsDistinct(v, [h]);
    }
  }

  lemma EncryptPartsLeave(l: Layout, key: nat, free: nat, s: State)
    requires l.home != Some(l.root) && l.varPart != Some(l.root) && forall p :: p in Parts(l) ==> IsPlain(s, p)
    ensures var r := Run(l, EncryptParts(l, EncryptOrder(l), key, s.script, free), s);
      && (r.done <==> Distinct(Parts(l)) && (s.script.Some? || free !in s.tpm))
      && (r.done ==> exists t ::
            AllLocked(Parts(l), key, s, t) && SetUp(l, key, AddressOf(s.script, free), t, End(s, r)))
  {
    hide Run, Cleared, Parts, Distinct, AutoSetup, SetUp, Lock, EncryptParts, EncryptOrder, Before, AllLocked;
    var init := Before(l);
    OrderOfParts(l);
    EncryptPartsJoin(l, init, [l.root], key, s.script, free);
    var first, last := EncryptParts(l, init, key, s.script, free), EncryptParts(l, [l.root], key, s.script, free);
    LocksLeave(l, init, key, s.script, free, s);
    Concat(l, first, last, s);
    if Run(l, first, s).done {
      var t := End(s, Run(l, first, s));
      RootStays(init, l.root, key, s, t);
      LastLeaves(l, init, key, free, s, t);
      EndOfChain(s, Run(l, first, s), Run(l, last, t));
    }
  }

  lemma RootStays(init: seq<Part>, root: Part, key: nat, s: State, t: State)
    requires AllLocked(init, key, s, t) && root !in init
    ensures IsPlain(s, root) ==> IsPlain(t, root)
    ensures t.script == s.script && t.tpm == s.tpm && t.running == s.running
  {
  }

  /** Root's turn, when all others are locked. */
  lemma LastLeaves(l: Layout, init: seq<Part>, key: nat, free: nat, s: State, t: State)
    requires AllLocked(init, key, s, t) && IsPlain(t, l.root) && l.root !in init
    requires t.script == s.script && t.tpm == s.tpm
    requires forall p :: p in Parts(l) <==> p in init + [l.root]
    ensures var r := Run(l, EncryptParts(l, [l.root], key, s.script, free), t);
      && (r.done <==> s.script.Some? || free !in s.tpm)
      && (r.done ==> exists u ::
            AllLocked(Parts(l), key, s, u) && SetUp(l, key, AddressOf(s.script, free), u, End(t, r)))
  {
    hide Run, Cleared, Parts, Distinct, AutoSetup, SetUp, Lock, EncryptParts, AllLocked;
    var u := LockedState(t, l.root, key);
    var root := [CopyKey(key)] + AutoSetup(l, s.script, free);
    LastStep(l, key, s.script, free);
    LockLeaves(l, l.root, key, t);
    Concat(l, Lock(l.root, key), root, t);
    RootAfterOthers(l, init, key, s, t);
    AllLockedHaveKeys(Parts(l), key, s, u);
    RootTurn(l, key, free, u);
    EndOfChain(t, Run(l, Lock(l.root, key), t), Run(l, root, u));
  }

  /** What is left by an encryption with this key, the sealed object being at `a`. */
  ghost predicate EncryptionLeft(l: Layout, key: nat, a: nat, s: State, t: State) {
    && Encrypted(Parts(l), key, s, t)
    && t.backups == s.backups + {key} && t.keyFile == Some(key)
    && t.script == Some(a) && t.hook && t.running == None
    && t.tpm == s.tpm[a := Sealed(key, RECOVERY)]
    && t.installed.Some? && t.installed.value.address == a
    && (forall p :: p in Parts(l) ==>
          (p in t.installed.value.uuids && t.installed.value.uuids[p] == t.vols[p].uuid))
  }

  lemma LeftBySetUp(l: Layout, key: nat, a: nat, s: State, t: State, u: State)
    requires AllLocked(Parts(l), key, s, t) && SetUp(l, key, a, t, u) && s.running == None && key in s.backups
    requires Distinct(Parts(l))
    ensures Encrypted(Parts(l), key, s, u) && u.backups == s.backups
    ensures EncryptionLeft(l, key, a, s, u)
  {
    hide Parts, Distinct, AllBlanked, AllLocked, Encrypted;
    LockedAndBlanked(Parts(l), key, s, t, t.(vols := u.vols));
    EncryptedVolumes(Parts(l), key, s, t.(vols := u.vols), u);
    FilesAfterLocks(Parts(l), key, s, t);
    assert s.backups + {key} == s.backups;
    UuidsOfEncrypted(l, key, s, u);
  }

  lemma EncryptedVolumes(parts: seq<Part>, key: nat, s: State, t: State, u: State)
    requires Encrypted(parts, key, s, t) && u.vols == t.vols
    ensures Encrypted(parts, key, s, u)
  {
  }

  lemma FilesAfterLocks(parts: seq<Part>, key: nat, s: State, t: State)
    requires AllLocked(parts, key, s, t)
    ensures t == s.(vols := t.vols, clock := t.clock)
  {
  }

  lemma UuidsOfEncrypted(l: Layout, key: nat, s: State, u: State)
    requires Encrypted(Parts(l), key, s, u)
    ensures forall p :: p in Parts(l) ==> IsLocked(u, p) && p in Uuids(l, u) && Uuids(l, u)[p] == u.vols[p].uuid
  {
    hide Parts;
  }

  /**
   When an encryption comes to its end, and what it leaves: every partition of the system opens with the
   blank password, which is there twice, and with the key, which is backed up, copied to root and sealed
   to the recovery system; script, hook and image agree on the address; no other volume has changed.
   */
  lemma EncryptionLeaves(l: Layout, key: nat, free: nat, s: State)
    ensures var r := Run(l, Program(l, Encrypt(key, free), s), s);
      && (r.done <==> Accepted(l, s, false) && Distinct(Parts(l)) && (s.script.Some? || free !in s.tpm))
      && (r.done ==> EncryptionLeft(l, key, AddressOf(s.script, free), s, End(s, r)))
  {
    hide Run, Cleared, EncryptParts, Distinct, AllLocked, SetUp, EncryptionLeft;
    DieRuns(l, s);
    if Accepted(l, s, false) {
      var s1 := s.(backups := s.backups + {key});
      var steps := EncryptParts(l, EncryptOrder(l), key, s.script, free);
      EncryptPartsLeave(l, key, free, s1);
      Cons(l, WriteBackup(key), steps, s);
      EndOfChain(s, Trace([s1], true), Run(l, steps, s1));
      if Run(l, steps, s1).done {
        var t :| AllLocked(Parts(l), key, s1, t)
          && SetUp(l, key, AddressOf(s.script, free), t, End(s1, Run(l, steps, s1)));
        LeftBySetUp(l, key, AddressOf(s.script, free), s1, t, End(s1, Run(l, steps, s1)));
        BackupFirst(l, key, AddressOf(s.script, free), s, End(s1, Run(l, steps, s1)));
      }
    }
  }

  lemma BackupFirst(l: Layout, key: nat, a: nat, s: State, t: State)
    requires EncryptionLeft(l, key, a, s.(backups := s.backups + {key}), t)
    ensures EncryptionLeft(l, key, a, s, t)
  {
    hide Parts;
  }

  // ---------------------------------------------------------------------------------------------
  // The update hook, and adding a blank password
  // ---------------------------------------------------------------------------------------------

  /**
   An update hook always comes to its end on a sealed system, and leaves one more blank password on every
   partition, the key file sealed to the running system, and a new image.
   */
  lemma HookLeaves(l: Layout, free: nat, s: State)
    requires Inv(l, s)
    ensures var r := Run(l, Program(l, UpdateHook(free), s), s);
      && (r.done <==> s.running.Some? && s.hook)
      && (r.done ==>
          s.keyFile.Some? && SetUp(l, s.keyFile.value, s.running.value.address, s, End(s, r)))
  {
    hide Run, Cleared, Parts, AutoSetup, SetUp;
    DieRuns(l, s);
    if s.running.Some? && s.hook {
      RunningHasKeys(l, s);
      AutoSetupLeaves(l, s.keyFile.value, free, s);
    }
  }

  /** A blank password is added exactly where the key opens the partition. */
  lemma AddBlankLeaves(l: Layout, p: Part, key: nat, s: State)
    ensures var r := Run(l, Program(l, AddBlankTo(p, key), s), s);
      && (r.done <==> HasKey(s, p, key))
      && (r.done ==> End(s, r) == WithSlots(s, p, s.vols[p].slots + multiset{Blank}))
  {
    hide Run, Cleared;
    Cons(l, AddBlank(p, Some(key)), [], s);
    assert [AddBlank(p, Some(key))] + [] == [AddBlank(p, Some(key))];
    Nothing(l, End(s, Exec(l, AddBlank(p, Some(key)), s)));
  }
}
