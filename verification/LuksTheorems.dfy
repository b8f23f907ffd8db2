/** What holds over the whole life of a machine, with runs stopped anywhere, and over completed runs. */
module LuksTheorems {
  import opened Core
  import opened Luks
  import opened LuksSafety
  import opened LuksRuns

  // ---------------------------------------------------------------------------------------------
  // Decryption
  // ---------------------------------------------------------------------------------------------

  lemma StripRuns(l: Layout, p: Part, key: nat, s: State)
    requires Inv(l, s) && s.running == None && (IsLocked(s, p) ==> HasKey(s, p, key))
    requires p in Parts(l) ==> p == l.root || !IsLocked(s, l.root)
    ensures Cleared(l, Strip(p, key), s)
    ensures Run(l, Strip(p, key), s).done ==> Stripped(s, End(s, Run(l, Strip(p, key), s)), p)
  {
    hide Inv, Parts, Run, Cleared;
    var removal := Exec(l, RemoveBlanks(p), s);
    var s1 := End(s, removal);
    if IsLocked(s, p) {
      assert SomeKey(s, p);
    }
    RemoveExec(l, p, s);
    Cons(l, DecryptPart(p, key), [], s1);
    Cons(l, ConvertSlots(p, key), [DecryptPart(p, key)], s1);
    Cons(l, RemoveBlanks(p), [ConvertSlots(p, key), DecryptPart(p, key)], s);
    Nothing(l, s1.(vols := s1.vols[p := Plain]));
    assert [DecryptPart(p, key)] + [] == [DecryptPart(p, key)];
    assert [ConvertSlots(p, key)] + [DecryptPart(p, key)] == [ConvertSlots(p, key), DecryptPart(p, key)];
    assert [RemoveBlanks(p)] + [ConvertSlots(p, key), DecryptPart(p, key)] == Strip(p, key);
    EndOfChain(s, removal, Run(l, [ConvertSlots(p, key), DecryptPart(p, key)], s1));
  }

  /** From `s` to `t`, partition `p` was decrypted and nothing else. */
  ghost predicate Stripped(s: State, t: State, p: Part) {
    && t == s.(vols := t.vols) && IsPlain(t, p)
    && (forall q :: q != p ==> (IsLocked(s, q) <==> IsLocked(t, q)))
    && (forall q, k :: q != p ==> (HasKey(s, q, k) <==> HasKey(t, q, k)))
  }

  /** The clean-up of the decrypted root file system leaves the partitions alone. */
  lemma CleanUpRuns(l: Layout, script: Option<nat>, s: State)
    requires !IsLocked(s, l.root)
    ensures Cleared(l, CleanUp(script), s)
    ensures End(s, Run(l, CleanUp(script), s)).vols == s.vols
    ensures End(s, Run(l, CleanUp(script), s)).running == s.running
  {
    hide Parts, Uuids;
    var a := if script.Some? then script.value else 0;
    var e := Exec(l, Evict(a, false), s);
    RemoveFilesRuns(l, s);
    RemoveFilesRuns(l, End(s, e));
    Cons(l, Evict(a, false), [RemoveScript, RemoveHook], s);
    EndOfChain(s, e, Run(l, [RemoveScript, RemoveHook], End(s, e)));
    assert [] + [RemoveScript, RemoveHook] == [RemoveScript, RemoveHook];
  }

  lemma RemoveFilesRuns(l: Layout, s: State)
    requires !IsLocked(s, l.root)
    ensures Cleared(l, [RemoveScript, RemoveHook], s)
    ensures End(s, Run(l, [RemoveScript, RemoveHook], s)) == s.(script := None, hook := false)
  {
    var s1 := s.(script := None);
    Cons(l, RemoveHook, [], s1);
    Cons(l, RemoveScript, [RemoveHook], s);
    assert [RemoveHook] + [] == [RemoveHook];
    assert [RemoveScript] + [RemoveHook] == [RemoveScript, RemoveHook];
  }

  /** Opening root with the key shows that every partition still locked has the key. */
  lemma {:induction false} DecryptPartsRun(l: Layout, parts: seq<Part>, key: nat, script: Option<nat>, s: State)
    requires Inv(l, s) && s.running == None
    requires forall q :: q in parts ==> IsLocked(s, q) ==> HasKey(s, q, key)
    requires (|parts| > 0 && parts[0] == l.root) || !IsLocked(s, l.root)
    ensures Cleared(l, DecryptParts(l, parts, key, script), s)
    ensures Run(l, DecryptParts(l, parts, key, script), s).done ==>
      !IsLocked(End(s, Run(l, DecryptParts(l, parts, key, script), s)), l.root)
    decreases |parts|
  {
    hide Parts, Run, Cleared, Inv, HasKey, Exec, CleanUp;
    if parts == [] {
      Nothing(l, s);
    } else {
      var p, rest := parts[0], parts[1..];
      var strip, tail := Strip(p, key), DecryptParts(l, rest, key, script);
      var clean := if p == l.root then CleanUp(script) else [];
      StripRuns(l, p, key, s);
      RunKeeps(l, strip, s);
      var t := End(s, Run(l, strip, s));
      assert DecryptParts(l, parts, key, script) == strip + clean + tail;
      Concat(l, strip, clean, s);
      Concat(l, strip + clean, tail, s);
      if Run(l, strip, s).done {
        CleanRuns(l, p, script, t);
        EndOfChain(s, Run(l, strip, s), Run(l, clean, t));
        var u := End(t, Run(l, clean, t));
        if Run(l, clean, t).done {
          RunKeeps(l, clean, t);
          SameVols(t, u);
          DecryptPartsRun(l, rest, key, script, u);
          EndOfChain(s, Run(l, strip + clean, s), Run(l, tail, u));
        }
      }
    }
  }

  lemma CleanRuns(l: Layout, p: Part, script: Option<nat>, t: State)
    requires !IsLocked(t, l.root)
    ensures var clean := if p == l.root then CleanUp(script) else [];
      Cleared(l, clean, t) && End(t, Run(l, clean, t)).vols == t.vols && End(t, Run(l, clean, t)).running == t.running
  {
    hide Run, Cleared, CleanUp;
    CleanUpRuns(l, script, t);
    Nothing(l, t);
  }

  lemma DecryptRun(l: Layout, key: nat, s: State)
    requires Inv(l, s)
    ensures Cleared(l, Program(l, Decrypt(key), s), s)
    ensures Run(l, Program(l, Decrypt(key), s), s).done ==>
      !IsLocked(End(s, Run(l, Program(l, Decrypt(key), s), s)), l.root)
  {
    hide Run, Cleared, DecryptParts;
    if Accepted(l, s, true) {
      var steps := DecryptParts(l, Parts(l), key, s.script);
      var e := Exec(l, OpenWith(l.root, key), s);
      Cons(l, OpenWith(l.root, key), steps, s);
      if HasKey(s, l.root, key) {
        assert e == Trace([s], true);
        DecryptPartsRun(l, Parts(l), key, s.script, s);
        EndOfChain(s, e, Run(l, steps, s));
      }
    } else {
      DieRuns(l, s);
    }
  }

  // ---------------------------------------------------------------------------------------------
  // Set up with a user
  // ---------------------------------------------------------------------------------------------

  /** The running system's root has its key, and so has every other partition. */
  lemma RunningHasKeys(l: Layout, s: State)
    requires Inv(l, s) && s.running.Some?
    ensures s.script == Some(s.running.value.address) && s.keyFile.Some?
    ensures forall p :: p in Parts(l) ==> HasKey(s, p, s.keyFile.value)
  {
  }

  /**
   A manual set up is safe at every step; when it completes, the key file is sealed to the running
   system, no blank password is left, and all keys are still there.
   */
  lemma ManualRun(l: Layout, free: nat, s: State)
    requires Inv(l, s) && s.running.Some? && s.hook
    ensures Cleared(l, Program(l, ManualSetup(free), s), s)
    ensures var r := Run(l, Program(l, ManualSetup(free), s), s);
      r.done ==> (
        && SealedAt(s, End(s, r), s.running.value.address)
        && End(s, r).installed == s.installed && End(s, r).running == s.running && SameLocks(s, End(s, r))
        && (forall p :: IsLocked(s, p) ==> End(s, r).vols[p].uuid == s.vols[p].uuid)
        && (forall p :: p in Parts(l) ==> !HasBlank(End(s, r), p)))
  {
    hide Run, Cleared, Parts, SealSteps, RemoveAll, Inv, HasKey, HasBlank;
    var sealing, removal := SealSteps(s.script, free), RemoveAll(Parts(l));
    RunningHasKeys(l, s);
    SealRuns(l, s.script, free, s);
    RunKeeps(l, sealing, s);
    var s1 := End(s, Run(l, sealing, s));
    SameVols(s, s1);
    forall p | p in Parts(l)
      ensures SomeKey(s1, p)
    {
      assert HasKey(s1, p, s.keyFile.value);
    }
    RemoveAllRun(l, Parts(l), s1);
    Concat(l, sealing, removal, s);
    EndOfChain(s, Run(l, sealing, s), Run(l, removal, s1));
  }

  /**
   A completed manual set up leaves the machine able to boot by itself exactly when the system that
   runs is the installed one.
   */
  lemma ManualBootsExactly(l: Layout, free: nat, s: State)
    requires Inv(l, s)
    requires Run(l, Program(l, ManualSetup(free), s), s).done
    ensures s.running.Some?
    ensures Bootable(l, End(s, Run(l, Program(l, ManualSetup(free), s), s))) <==>
      s.installed.Some? && FindsRoot(l, s, s.installed.value) && s.installed.value.build == s.running.value.build
  {
    hide Run, SealSteps, RemoveAll, Cleared;
    DieRuns(l, s);
    ManualRun(l, free, s);
    var t := End(s, Run(l, Program(l, ManualSetup(free), s), s));
    RunningHasKeys(l, s);
    ManualEndBoots(l, s, t);
  }

  lemma ManualEndBoots(l: Layout, s: State, t: State)
    requires Inv(l, s) && s.running.Some?
    requires SealedAt(s, t, s.running.value.address)
    requires t.installed == s.installed && SameLocks(s, t)
    requires forall p :: IsLocked(s, p) ==> IsLocked(t, p) && t.vols[p].uuid == s.vols[p].uuid
    requires forall p :: p in Parts(l) ==> !HasBlank(t, p)
    ensures Bootable(l, t) <==>
      s.installed.Some? && FindsRoot(l, s, s.installed.value) && s.installed.value.build == s.running.value.build
  {
    hide Parts;
    RunningHasKeys(l, s);
    assert l.root in Parts(l) by {
      RootIsPart(l);
    }
    if Bootable(l, t) {
      assert OpensAtBoot(t, t.installed.value, l.root);
    }
    if s.installed.Some? && FindsRoot(l, s, s.installed.value) && s.installed.value.build == s.running.value.build {
      forall p | p in Parts(l)
        ensures OpensAtBoot(t, t.installed.value, p)
      {
        assert HasKey(s, p, s.keyFile.value);
      }
    }
  }

  lemma RootIsPart(l: Layout)
    ensures l.root in Parts(l)
  {
  }

  /** No blank password is removed before the new sealed object is there. */
  lemma ManualSealsFirst(l: Layout, free: nat, s: State, i: nat, p: Part)
    requires Inv(l, s)
    requires i < |Run(l, Program(l, ManualSetup(free), s), s).states|
    ensures var t := Run(l, Program(l, ManualSetup(free), s), s).states[i];
      HasBlank(s, p) && !HasBlank(t, p) ==> s.running.Some? && SealedAt(s, t, s.running.value.address)
  {
    hide Run, Cleared, Parts, SealSteps, RemoveAll, Inv, HasKey, HasBlank;
    DieRuns(l, s);
    var sealing, removal := SealSteps(s.script, free), RemoveAll(Parts(l));
    RunningHasKeys(l, s);
    SealRuns(l, s.script, free, s);
    SealStates(l, s.script, free, s);
    var s1 := End(s, Run(l, sealing, s));
    Concat(l, sealing, removal, s);
    RemoveAllStates(l, Parts(l), s1);
    var t := Run(l, Program(l, ManualSetup(free), s), s).states[i];
    SameVols(s, if t.vols == s.vols then t else s);
    if i >= |Run(l, sealing, s).states| {
      assert t.tpm == s1.tpm;
    } else {
      assert t.vols == s.vols;
    }
  }

  lemma SealStates(l: Layout, script: Option<nat>, free: nat, s: State)
    ensures forall i :: 0 <= i < |Run(l, SealSteps(script, free), s).states| ==>
      Run(l, SealSteps(script, free), s).states[i].vols == s.vols
  {
    hide Parts, Uuids;
    var a := AddressOf(script, free);
    var e := Exec(l, Evict(a, true), s);
    Cons(l, Seal(a), [], s);
    Cons(l, Evict(a, true), [Seal(a)], s);
    Cons(l, Seal(a), [], End(s, e));
    assert [Seal(a)] + [] == [Seal(a)];
    assert [Evict(a, true)] + [Seal(a)] == [Evict(a, true), Seal(a)];
  }

  lemma {:induction false} RemovalStates(s: State, p: Part)
    ensures forall i :: 0 <= i < |Removals(s, p).states| ==> Removals(s, p).states[i].tpm == s.tpm
    decreases if IsLocked(s, p) then s.vols[p].slots[Blank] else 0
  {
    if HasBlank(s, p) {
      RemovalStates(WithSlots(s, p, s.vols[p].slots - multiset{Blank}), p);
    }
  }

  lemma {:induction false} RemoveAllStates(l: Layout, parts: seq<Part>, s: State)
    ensures forall i :: 0 <= i < |Run(l, RemoveAll(parts), s).states| ==>
      Run(l, RemoveAll(parts), s).states[i].tpm == s.tpm
    decreases |parts|
  {
    hide Removals, Cleared;
    if parts != [] {
      var e := Exec(l, RemoveBlanks(parts[0]), s);
      RemovalStates(s, parts[0]);
      RemoveAllStates(l, parts[1..], End(s, e));
      Cons(l, RemoveBlanks(parts[0]), RemoveAll(parts[1..]), s);
    }
  }

  // ---------------------------------------------------------------------------------------------
  // The update hook
  // ---------------------------------------------------------------------------------------------

  lemma HookRun(l: Layout, free: nat, s: State)
    requires Inv(l, s)
    ensures Cleared(l, Program(l, UpdateHook(free), s), s)
    ensures var r := Run(l, Program(l, UpdateHook(free), s), s);
      r.done ==> (
        && s.running.Some? && Bootable(l, End(s, r)) && End(s, r).running == s.running
        && End(s, r).installed.value.build == s.clock)
  {
    hide Run, Cleared, AutoSetup, Bootable, Parts;
    DieRuns(l, s);
    if s.running.Some? && s.hook {
      RunningHasKeys(l, s);
      RootIsPart(l);
      AutoSetupRuns(l, free, s);
    }
  }

  /**
   The code does not ask for the reboot between the update hook and the manual set up: when both
   complete without one, no partition opens by itself at the next boot.
   */
  lemma ManualTooEarly(l: Layout, free: nat, again: nat, s: State)
    requires Inv(l, s)
    requires Run(l, Program(l, UpdateHook(free), s), s).done
    requires var t := End(s, Run(l, Program(l, UpdateHook(free), s), s));
      Run(l, Program(l, ManualSetup(again), t), t).done
    ensures var t := End(s, Run(l, Program(l, UpdateHook(free), s), s));
      !Bootable(l, End(t, Run(l, Program(l, ManualSetup(again), t), t)))
  {
    hide Run, Cleared, Bootable, Program;
    var t := End(s, Run(l, Program(l, UpdateHook(free), s), s));
    HookRun(l, free, s);
    RunKeeps(l, Program(l, UpdateHook(free), s), s);
    ManualBootsExactly(l, again, t);
    InvIsFresh(l, s);
  }

  // ---------------------------------------------------------------------------------------------
  // Lives
  // ---------------------------------------------------------------------------------------------

  lemma SingleRuns(l: Layout, c: Command, s: State)
    requires c.AddBlank? || c.Boot? || c.BootRecovery?
    ensures Cleared(l, [c], s) && Run(l, [c], s) == Exec(l, c, s)
  {
    Cons(l, c, [], s);
    assert [c] + [] == [c];
  }

  /** Every run of the tool gives its commands only where they are safe. */
  lemma ProgramsAreCleared(l: Layout, op: Op, s: State)
    requires Inv(l, s)
    ensures Cleared(l, Program(l, op, s), s)
  {
    hide Run, Cleared, Inv, AutoSetup, EncryptParts, DecryptParts, Accepted;
    match op
    case Encrypt(key, free) => EncryptRun(l, key, free, s);
    case Decrypt(key) => DecryptRun(l, key, s);
    case UpdateHook(free) => HookRun(l, free, s);
    case ManualSetup(free) =>
      DieRuns(l, s);
      if s.running.Some? && s.hook {
        ManualRun(l, free, s);
      }
    case AddBlankTo(p, key) => SingleRuns(l, AddBlank(p, Some(key)), s);
    case BootInstalled => SingleRuns(l, Boot, s);
    case BootOther => SingleRuns(l, BootRecovery, s);
  }

  /** Wherever a run is stopped, the laws of the machine hold. */
  lemma StoppedRunKeeps(l: Layout, e: Event, s: State)
    requires Inv(l, s)
    ensures Inv(l, After(s, Run(l, Program(l, e.op, s), s), e.steps))
  {
    hide Run, Program, Cleared, Inv;
    ProgramsAreCleared(l, e.op, s);
    RunKeeps(l, Program(l, e.op, s), s);
  }

  lemma {:induction false} LifeKeeps(l: Layout, s: State, events: seq<Event>)
    requires Inv(l, s)
    ensures Inv(l, Life(l, s, events))
    decreases |events|
  {
    hide Run, Program, Inv;
    if events != [] {
      StoppedRunKeeps(l, events[0], s);
      LifeKeeps(l, After(s, Run(l, Program(l, events[0].op, s), s), events[0].steps), events[1..]);
    }
  }

  /**
   Over a fixed set of partitions, after any number of runs in any order, each stopped anywhere: every
   encrypted partition opens with the blank password or with a backed-up key, and every key in a slot
   was backed up.
   */
  lemma NothingIsEverLost(l: Layout, s: State, events: seq<Event>)
    requires Pristine(s)
    ensures Recoverable(Life(l, s, events)) && BackedUp(Life(l, s, events))
  {
    PristineKeeps(l, s);
    LifeKeeps(l, s, events);
  }

  /** The run comes to its end, and a manual set up only follows the reboot into the installed image. */
  ghost predicate Proper(l: Layout, s: State, e: Event) {
    var r := Run(l, Program(l, e.op, s), s);
    && r.done && e.steps >= |r.states|
    && (e.op.ManualSetup? && s.running.Some? && s.installed.Some? ==> s.installed.value.build == s.running.value.build)
  }

  ghost predicate ProperLife(l: Layout, s: State, events: seq<Event>)
    decreases |events|
  {
    events == [] || (
      && Proper(l, s, events[0])
      && ProperLife(l, After(s, Run(l, Program(l, events[0].op, s), s), events[0].steps), events[1..]))
  }

  /** An encrypted system boots by itself. */
  predicate Healthy(l: Layout, s: State) {
    IsLocked(s, l.root) ==> Bootable(l, s)
  }

  lemma AfterAll(s: State, r: Trace, steps: nat)
    requires steps >= |r.states|
    ensures After(s, r, steps) == End(s, r)
  {
  }

  lemma AddBlankIsHealthy(l: Layout, p: Part, key: nat, s: State)
    requires Healthy(l, s)
    ensures Healthy(l, End(s, Exec(l, AddBlank(p, Some(key)), s)))
  {
    hide Parts;
    if HasKey(s, p, key) {
      AddedSlots(s, p, multiset{Blank});
      var t := End(s, Exec(l, AddBlank(p, Some(key)), s));
      if IsLocked(s, l.root) {
        forall q | q in Parts(l)
          ensures OpensAtBoot(t, t.installed.value, q)
        {
          assert OpensAtBoot(s, s.installed.value, q);
        }
      }
    }
  }

  lemma BootIsHealthy(l: Layout, c: Command, s: State)
    requires c.Boot? || c.BootRecovery?
    requires Healthy(l, s)
    ensures Healthy(l, End(s, Exec(l, c, s)))
  {
    hide Parts;
    var t := End(s, Exec(l, c, s));
    if IsLocked(s, l.root) {
      forall q | q in Parts(l)
        ensures OpensAtBoot(t, t.installed.value, q)
      {
        assert OpensAtBoot(s, s.installed.value, q);
      }
    }
  }

  lemma ManualIsHealthy(l: Layout, free: nat, s: State)
    requires Inv(l, s) && Healthy(l, s)
    requires Run(l, Program(l, ManualSetup(free), s), s).done
    requires s.running.Some? && s.installed.Some? ==> s.installed.value.build == s.running.value.build
    ensures Healthy(l, End(s, Run(l, Program(l, ManualSetup(free), s), s)))
  {
    hide Run, Program;
    ManualBootsExactly(l, free, s);
    RunningHasKeys(l, s);
    RootIsPart(l);
    assert HasKey(s, l.root, s.keyFile.value);
    assert OpensAtBoot(s, s.installed.value, l.root);
  }

  lemma ProperRunIsHealthy(l: Layout, e: Event, s: State)
    requires Inv(l, s) && Healthy(l, s) && Proper(l, s, e)
    ensures Healthy(l, After(s, Run(l, Program(l, e.op, s), s), e.steps))
  {
    hide Run, Cleared, Inv, AutoSetup, EncryptParts, DecryptParts, Accepted, SealSteps, RemoveAll, Bootable, Exec;
    AfterAll(s, Run(l, Program(l, e.op, s), s), e.steps);
    match e.op
    case Encrypt(key, free) => EncryptRun(l, key, free, s);
    case Decrypt(key) => DecryptRun(l, key, s);
    case UpdateHook(free) => HookRun(l, free, s);
    case ManualSetup(free) => ManualIsHealthy(l, free, s);
    case AddBlankTo(p, key) =>
      SingleRuns(l, AddBlank(p, Some(key)), s);
      AddBlankIsHealthy(l, p, key, s);
    case BootInstalled =>
      SingleRuns(l, Boot, s);
      BootIsHealthy(l, Boot, s);
    case BootOther =>
      SingleRuns(l, BootRecovery, s);
      BootIsHealthy(l, BootRecovery, s);
  }

  /**
   After any sequence of completed runs in which no manual set up runs ahead of the reboot, the
   encrypted system opens all its partitions at the next boot by itself.
   */
  lemma {:induction false} ProperLifeBoots(l: Layout, s: State, events: seq<Event>)
    requires Inv(l, s) && Healthy(l, s) && ProperLife(l, s, events)
    ensures Healthy(l, Life(l, s, events))
    decreases |events|
  {
    hide Run, Program, Inv, Healthy;
    if events != [] {
      ProperRunIsHealthy(l, events[0], s);
      StoppedRunKeeps(l, events[0], s);
      ProperLifeBoots(l, After(s, Run(l, Program(l, events[0].op, s), s), events[0].steps), events[1..]);
    }
  }
}
