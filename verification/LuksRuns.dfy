/** The tool's runs as lists of commands: each command is given only where it is safe. */
module LuksRuns {
  import opened Core
  import opened Luks
  import opened LuksSafety

  /** The partition opens at the next boot without help: by the blank password or by the sealed key. */
  predicate OpensAtBoot(s: State, i: Image, p: Part) {
    && IsLocked(s, p) && p in i.uuids && i.uuids[p] == s.vols[p].uuid
    && (HasBlank(s, p) || Unseals(s, i, p))
  }

  predicate Unseals(s: State, i: Image, p: Part) {
    i.address in s.tpm && s.tpm[i.address].build == i.build && HasKey(s, p, s.tpm[i.address].key)
  }

  predicate Bootable(l: Layout, s: State) {
    s.installed.Some? && forall p :: p in Parts(l) ==> OpensAtBoot(s, s.installed.value, p)
  }

  // ---------------------------------------------------------------------------------------------
  // Sealing
  // ---------------------------------------------------------------------------------------------

  /** In `t`, the key file of `s` is sealed at `a` to the system that runs in `s`. */
  predicate SealedAt(s: State, t: State, a: nat) {
    s.keyFile.Some? && a in t.tpm && t.tpm[a] == Sealed(s.keyFile.value, Measured(s))
  }

  /** Sealing changes the TPM only, and ends with the key file sealed to the running system. */
  lemma SealRuns(l: Layout, script: Option<nat>, free: nat, s: State)
    ensures Cleared(l, SealSteps(script, free), s)
    ensures var t := End(s, Run(l, SealSteps(script, free), s)); t == s.(tpm := t.tpm)
    ensures Run(l, SealSteps(script, free), s).done ==>
      SealedAt(s, End(s, Run(l, SealSteps(script, free), s)), AddressOf(script, free))
  {
    hide Run, Cleared, SealedAt;
    if script.Some? {
      ResealRuns(l, script.value, s);
    } else {
      SealOnce(l, free, s);
    }
  }

  lemma SealOnce(l: Layout, a: nat, s: State)
    ensures Cleared(l, [Seal(a)], s)
    ensures var t := End(s, Run(l, [Seal(a)], s)); t == s.(tpm := t.tpm)
    ensures Run(l, [Seal(a)], s).done ==> SealedAt(s, End(s, Run(l, [Seal(a)], s)), a)
  {
    Nothing(l, End(s, Exec(l, Seal(a), s)));
    hide Run, Cleared;
    Cons(l, Seal(a), [], s);
    assert [Seal(a)] + [] == [Seal(a)];
  }

  lemma ResealRuns(l: Layout, a: nat, s: State)
    ensures Cleared(l, [Evict(a, true), Seal(a)], s)
    ensures var t := End(s, Run(l, [Evict(a, true), Seal(a)], s)); t == s.(tpm := t.tpm)
    ensures Run(l, [Evict(a, true), Seal(a)], s).done ==>
      SealedAt(s, End(s, Run(l, [Evict(a, true), Seal(a)], s)), a)
  {
    hide Run, Cleared;
    var e := Exec(l, Evict(a, true), s);
    var next := s.(tpm := s.tpm - {a});
    assert e == Trace([next], true);
    SealOnce(l, a, next);
    Cons(l, Evict(a, true), [Seal(a)], s);
    EndOfChain(s, e, Run(l, [Seal(a)], next));
    assert [Evict(a, true)] + [Seal(a)] == [Evict(a, true), Seal(a)];
  }

  // ---------------------------------------------------------------------------------------------
  // Blank passwords
  // ---------------------------------------------------------------------------------------------

  lemma AddBlankExec(l: Layout, p: Part, s: State)
    ensures SameKeys(s, End(s, Exec(l, AddBlank(p, None), s)))
    ensures forall q :: HasBlank(s, q) ==> HasBlank(End(s, Exec(l, AddBlank(p, None), s)), q)
    ensures Exec(l, AddBlank(p, None), s).done ==> HasBlank(End(s, Exec(l, AddBlank(p, None), s)), p)
  {
    if IsLocked(s, p) {
      AddedSlots(s, p, multiset{Blank});
    }
  }

  lemma SameKeysChain(a: State, b: State, c: State)
    requires SameKeys(a, b) && SameKeys(b, c)
    ensures SameKeys(a, c)
  {
    hide IsLocked, HasKey;
  }

  lemma {:induction false} AddBlanksRun(l: Layout, parts: seq<Part>, s: State)
    ensures Cleared(l, AddBlanks(parts), s)
    ensures SameKeys(s, End(s, Run(l, AddBlanks(parts), s)))
    ensures forall q :: HasBlank(s, q) ==> HasBlank(End(s, Run(l, AddBlanks(parts), s)), q)
    ensures Run(l, AddBlanks(parts), s).done ==>
      forall q :: q in parts ==> HasBlank(End(s, Run(l, AddBlanks(parts), s)), q)
    decreases |parts|
  {
    hide Exec, SameKeys, HasBlank, Run, Cleared;
    if parts == [] {
      Nothing(l, s);
    } else {
      var e := Exec(l, AddBlank(parts[0], None), s);
      AddBlankExec(l, parts[0], s);
      AddBlanksRun(l, parts[1..], End(s, e));
      Cons(l, AddBlank(parts[0], None), AddBlanks(parts[1..]), s);
      EndOfChain(s, e, Run(l, AddBlanks(parts[1..]), End(s, e)));
      SameKeysChain(s, End(s, e), End(End(s, e), Run(l, AddBlanks(parts[1..]), End(s, e))));
    }
  }

  /** Removing blanks from partitions that have keys leaves the keys and no blanks. */
  lemma {:induction false} RemoveAllRun(l: Layout, parts: seq<Part>, s: State)
    requires Inv(l, s)
    requires forall p :: p in parts ==> IsLocked(s, p) ==> SomeKey(s, p)
    ensures Cleared(l, RemoveAll(parts), s)
    ensures SameKeys(s, End(s, Run(l, RemoveAll(parts), s)))
    ensures Run(l, RemoveAll(parts), s).done ==>
      forall q :: q in parts ==> !HasBlank(End(s, Run(l, RemoveAll(parts), s)), q)
    ensures forall q :: HasBlank(End(s, Run(l, RemoveAll(parts), s)), q) ==> HasBlank(s, q)
    decreases |parts|
  {
    hide Exec, HasBlank, Run, Cleared, Inv;
    if parts == [] {
      Nothing(l, s);
    } else {
      var e := Exec(l, RemoveBlanks(parts[0]), s);
      RemoveExec(l, parts[0], s);
      RemoveAllRun(l, parts[1..], End(s, e));
      Cons(l, RemoveBlanks(parts[0]), RemoveAll(parts[1..]), s);
      EndOfChain(s, e, Run(l, RemoveAll(parts[1..]), End(s, e)));
      SameKeysChain(s, End(s, e), End(End(s, e), Run(l, RemoveAll(parts[1..]), End(s, e))));
    }
  }

  lemma RemoveExec(l: Layout, p: Part, s: State)
    requires Inv(l, s) && (IsLocked(s, p) ==> SomeKey(s, p))
    ensures SameKeys(s, End(s, Exec(l, RemoveBlanks(p), s))) && Inv(l, End(s, Exec(l, RemoveBlanks(p), s)))
    ensures forall q :: HasBlank(End(s, Exec(l, RemoveBlanks(p), s)), q) <==> q != p && HasBlank(s, q)
    ensures Exec(l, RemoveBlanks(p), s).done <==> IsLocked(s, p)
  {
    hide Inv;
    RemovalsKeep(l, s, p);
  }

  // ---------------------------------------------------------------------------------------------
  // Set up without a user
  // ---------------------------------------------------------------------------------------------

  /** The images that can start this system use the address that will be written to the script. */
  predicate AddressFits(l: Layout, s: State, a: nat) {
    && (s.installed.Some? && FindsRoot(l, s, s.installed.value) ==> s.installed.value.address == a)
    && (s.running.Some? && FindsRoot(l, s, s.running.value) ==> s.running.value.address == a)
  }

  lemma FinishRuns(l: Layout, a: nat, s: State)
    requires AddressFits(l, s, a)
    requires s.keyFile.Some? && HasKey(s, l.root, s.keyFile.value)
    ensures Cleared(l, Finish(a), s)
    ensures var t := End(s, Run(l, Finish(a), s)); t.vols == s.vols && t.running == s.running && t.tpm == s.tpm
    ensures Run(l, Finish(a), s).done ==>
      && (forall p :: p in Parts(l) ==> IsLocked(s, p))
      && End(s, Run(l, Finish(a), s)).installed == Some(Image(s.clock, Uuids(l, s), a))
  {
    hide Parts;
    var s1 := s.(script := Some(a));
    var s2 := s1.(hook := true);
    Cons(l, InstallImage(a), [], s2);
    Cons(l, WriteHook, [InstallImage(a)], s1);
    Cons(l, WriteScript(a), [WriteHook, InstallImage(a)], s);
    assert [InstallImage(a)] + [] == [InstallImage(a)];
    assert [WriteHook] + [InstallImage(a)] == [WriteHook, InstallImage(a)];
    assert [WriteScript(a)] + [WriteHook, InstallImage(a)] == Finish(a);
    assert Exec(l, WriteScript(a), s) == Trace([s1], true);
    assert Exec(l, WriteHook, s1) == Trace([s2], true);
    assert Uuids(l, s2) == Uuids(l, s);
  }

  /** The same partitions are locked, and open with the same keys. */
  ghost predicate SameLocks(s: State, t: State) {
    (forall p :: IsLocked(s, p) <==> IsLocked(t, p)) && (forall p, k :: HasKey(s, p, k) <==> HasKey(t, p, k))
  }

  lemma SameVols(s: State, t: State)
    requires s.vols == t.vols
    ensures SameLocks(s, t) && forall p :: HasBlank(s, p) <==> HasBlank(t, p)
  {
  }

  lemma AutoSetupRuns(l: Layout, free: nat, s: State)
    requires AddressFits(l, s, AddressOf(s.script, free))
    requires s.keyFile.Some? ==> HasKey(s, l.root, s.keyFile.value)
    ensures Cleared(l, AutoSetup(l, s.script, free), s)
    ensures var t := End(s, Run(l, AutoSetup(l, s.script, free), s));
      && t.running == s.running && SameLocks(s, t)
      && (Run(l, AutoSetup(l, s.script, free), s).done ==>
          Bootable(l, t) && t.installed.Some? && t.installed.value.build == s.clock)
  {
    hide SealSteps, AddBlanks, Finish, Run, Cleared, Parts, IsLocked, HasKey, HasBlank, FindsRoot, Bootable, Exec;
    var a := AddressOf(s.script, free);
    var sealing, blanks := SealSteps(s.script, free), AddBlanks(Parts(l));
    SealRuns(l, s.script, free, s);
    var s1 := End(s, Run(l, sealing, s));
    SameVols(s, s1);
    AddBlanksRun(l, Parts(l), s1);
    var s2 := End(s1, Run(l, blanks, s1));
    Concat(l, sealing, blanks, s);
    EndOfChain(s, Run(l, sealing, s), Run(l, blanks, s1));
    Concat(l, sealing + blanks, Finish(a), s);
    if Run(l, sealing + blanks, s).done {
      SameAddress(l, s, s1, s2, a);
      FinishRuns(l, a, s2);
      var t := End(s2, Run(l, Finish(a), s2));
      EndOfChain(s, Run(l, sealing + blanks, s), Run(l, Finish(a), s2));
      SameVols(s2, t);
      if Run(l, Finish(a), s2).done {
        BlanksBoot(l, s2, t, a);
      }
    }
  }

  lemma SameAddress(l: Layout, s: State, s1: State, s2: State, a: nat)
    requires AddressFits(l, s, a) && s1 == s.(tpm := s1.tpm) && SameKeys(s1, s2)
    ensures AddressFits(l, s2, a)
  {
  }

  lemma BlanksBoot(l: Layout, s: State, t: State, a: nat)
    requires t.vols == s.vols && t.installed == Some(Image(s.clock, Uuids(l, s), a))
    requires forall p :: p in Parts(l) ==> HasBlank(s, p)
    ensures Bootable(l, t)
  {
    hide Parts;
    forall p | p in Parts(l)
      ensures OpensAtBoot(t, t.installed.value, p)
    {
      assert HasBlank(s, p);
    }
  }

  // ---------------------------------------------------------------------------------------------
  // Encryption
  // ---------------------------------------------------------------------------------------------

  /** The state after a partition has been encrypted and given its key. */
  function LockedState(s: State, p: Part, key: nat): State {
    s.(vols := s.vols[p := Locked(s.clock, multiset{Blank, Key(key)})], clock := s.clock + 1)
  }

  /** The partition, encrypted with the blank password alone. */
  function BlankState(s: State, p: Part): State {
    s.(vols := s.vols[p := Locked(s.clock, multiset{Blank})], clock := s.clock + 1)
  }

  lemma LockEffects(l: Layout, p: Part, key: nat, s: State)
    ensures Effect(l, CheckPlain(p), s) == if IsPlain(s, p) then Some(s) else None
    ensures Effect(l, Reencrypt(p), s) == if IsPlain(s, p) then Some(BlankState(s, p)) else None
    ensures Effect(l, AddKey(p, key), BlankState(s, p)) == Some(LockedState(s, p, key))
  {
    var v := multiset{Blank} + multiset{Key(key)};
    assert v == multiset{Blank, Key(key)};
    assert s.vols[p := Locked(s.clock, multiset{Blank})][p := Locked(s.clock, v)] == s.vols[p := Locked(s.clock, v)];
  }

  /** The commands of one turn, one after the other. */
  lemma LockInSteps(l: Layout, p: Part, key: nat, s: State)
    ensures Lock(p, key) == [CheckPlain(p)] + ([Reencrypt(p)] + ([AddKey(p, key)] + []))
    ensures var t := BlankState(s, p);
      && Exec(l, CheckPlain(p), s) == (if IsPlain(s, p) then Trace([s], true) else Trace([], false))
      && Exec(l, Reencrypt(p), s) == (if IsPlain(s, p) then Trace([t], true) else Trace([], false))
      && Exec(l, AddKey(p, key), t) == Trace([LockedState(s, p, key)], true)
  {
    hide Effect, BlankState, LockedState;
    LockEffects(l, p, key, s);
  }

  lemma LockLeaves(l: Layout, p: Part, key: nat, s: State)
    ensures var r := Run(l, Lock(p, key), s);
      (r.done <==> IsPlain(s, p)) && (r.done ==> End(s, r) == LockedState(s, p, key))
  {
    hide Run, Cleared, Exec, BlankState, LockedState, Lock;
    LockInSteps(l, p, key, s);
    Nothing(l, LockedState(s, p, key));
    Cons(l, AddKey(p, key), [], BlankState(s, p));
    Cons(l, Reencrypt(p), [AddKey(p, key)] + [], s);
    Cons(l, CheckPlain(p), [Reencrypt(p)] + ([AddKey(p, key)] + []), s);
  }

  lemma LockRuns(l: Layout, p: Part, key: nat, s: State)
    requires Inv(l, s) && key in s.backups
    requires p == l.root ==> forall q :: q in Parts(l) && q != p ==> HasKey(s, q, key)
    ensures Cleared(l, Lock(p, key), s)
    ensures Run(l, Lock(p, key), s).done <==> IsPlain(s, p)
    ensures IsPlain(s, p) ==> End(s, Run(l, Lock(p, key), s)) == LockedState(s, p, key)
  {
    hide Parts, Inv, Run, Cleared, Exec, Lock;
    LockLeaves(l, p, key, s);
    LockInSteps(l, p, key, s);
    Nothing(l, LockedState(s, p, key));
    Cons(l, AddKey(p, key), [], BlankState(s, p));
    Cons(l, Reencrypt(p), [AddKey(p, key)] + [], s);
    Cons(l, CheckPlain(p), [Reencrypt(p)] + ([AddKey(p, key)] + []), s);
  }

  lemma LockedStateHas(l: Layout, s: State, p: Part, key: nat)
    requires Fresh(s) && IsPlain(s, p)
    ensures HasKey(LockedState(s, p, key), p, key)
    ensures forall q :: HasKey(s, q, key) ==> HasKey(LockedState(s, p, key), q, key)
    ensures p == l.root && s.installed.Some? ==> !FindsRoot(l, LockedState(s, p, key), s.installed.value)
  {
  }

  lemma RootSteps(l: Layout, key: nat, free: nat, s: State)
    requires HasKey(s, l.root, key) && s.running == None
    requires s.installed.Some? ==> !FindsRoot(l, s, s.installed.value)
    ensures Cleared(l, [CopyKey(key)] + AutoSetup(l, s.script, free), s)
    ensures Run(l, [CopyKey(key)] + AutoSetup(l, s.script, free), s).done ==>
      Bootable(l, End(s, Run(l, [CopyKey(key)] + AutoSetup(l, s.script, free), s)))
  {
    hide AutoSetup, Bootable, Parts, Run, Cleared;
    var s1 := s.(keyFile := Some(key));
    assert Exec(l, CopyKey(key), s) == Trace([s1], true);
    SameVols(s, s1);
    AutoSetupRuns(l, free, s1);
    Cons(l, CopyKey(key), AutoSetup(l, s.script, free), s);
    EndOfChain(s, Exec(l, CopyKey(key), s), Run(l, AutoSetup(l, s.script, free), s1));
  }

  /** Root comes last, after every other partition has got the key. */
  lemma {:induction false} EncryptPartsRun(l: Layout, parts: seq<Part>, key: nat, free: nat, s: State)
    requires Inv(l, s) && key in s.backups && s.running == None
    requires |parts| > 0 && parts[|parts| - 1] == l.root && l.root !in parts[..|parts| - 1]
    requires forall q :: q in Parts(l) ==> q in parts || HasKey(s, q, key)
    ensures Cleared(l, EncryptParts(l, parts, key, s.script, free), s)
    ensures Run(l, EncryptParts(l, parts, key, s.script, free), s).done ==>
      Bootable(l, End(s, Run(l, EncryptParts(l, parts, key, s.script, free), s)))
    decreases |parts|
  {
    hide AutoSetup, Bootable, Parts, Run, Cleared, Inv, HasKey, Fresh, FindsRoot, Exec;
    var p, rest := parts[0], parts[1..];
    var lock, after := Lock(p, key), EncryptParts(l, rest, key, s.script, free);
    var t := LockedState(s, p, key);
    LockRuns(l, p, key, s);
    RunKeeps(l, lock, s);
    if IsPlain(s, p) {
      InvIsFresh(l, s);
      LockedStateHas(l, s, p, key);
      if p == l.root {
        assert rest == [];
        RootSteps(l, key, free, t);
        var root := [CopyKey(key)] + AutoSetup(l, s.script, free);
        assert EncryptParts(l, parts, key, s.script, free) == lock + root;
        Concat(l, lock, root, s);
        EndOfChain(s, Run(l, lock, s), Run(l, root, t));
      } else {
        assert rest[..|rest| - 1] == parts[..|parts| - 1][1..];
        EncryptPartsRun(l, rest, key, free, t);
        assert EncryptParts(l, parts, key, s.script, free) == lock + after;
        Concat(l, lock, after, s);
        EndOfChain(s, Run(l, lock, s), Run(l, after, t));
      }
    } else {
      var more := (if p == l.root then [CopyKey(key)] + AutoSetup(l, s.script, free) else []) + after;
      assert EncryptParts(l, parts, key, s.script, free) == lock + more;
      Concat(l, lock, more, s);
    }
  }

  lemma InvIsFresh(l: Layout, s: State)
    requires Inv(l, s)
    ensures Fresh(s)
  {
  }

  lemma EncryptRun(l: Layout, key: nat, free: nat, s: State)
    requires Inv(l, s)
    ensures Cleared(l, Program(l, Encrypt(key, free), s), s)
    ensures Run(l, Program(l, Encrypt(key, free), s), s).done ==>
      Bootable(l, End(s, Run(l, Program(l, Encrypt(key, free), s), s)))
  {
    hide Bootable, Run, Cleared, Inv, HasKey, EncryptParts, Exec;
    if Accepted(l, s, false) {
      var s1 := s.(backups := s.backups + {key});
      var steps := EncryptParts(l, EncryptOrder(l), key, s.script, free);
      WriteBackupExec(l, key, s);
      EncryptPartsRun(l, EncryptOrder(l), key, free, s1);
      Cons(l, WriteBackup(key), steps, s);
      EndOfChain(s, Exec(l, WriteBackup(key), s), Run(l, steps, s1));
    } else {
      DieRuns(l, s);
    }
  }

  lemma WriteBackupExec(l: Layout, key: nat, s: State)
    requires Inv(l, s)
    ensures Exec(l, WriteBackup(key), s) == Trace([s.(backups := s.backups + {key})], true)
    ensures Inv(l, s.(backups := s.backups + {key}))
  {
    hide Inv;
    EffectKeeps(l, WriteBackup(key), s);
  }
}
