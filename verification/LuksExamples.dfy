/** A sealed machine on which the update hook and a manual set up run without a reboot in between. */
module LuksExamples {
  import opened Core
  import opened Luks
  import opened LuksSafety
  import opened LuksRuns
  import opened LuksTheorems

  const ONLY_ROOT: Layout := Layout(0, None, None)
  const IMAGE: Image := Image(2, map[0 := 1], 7)

  /** Encrypted, sealed, and booted from its own image, with these slots, TPM, installed image and clock. */
  function Machine(slots: multiset<Slot>, tpm: map<nat, Sealed>, installed: Image, clock: nat): State {
    State(map[0 := Locked(1, slots)], {5}, tpm, Some(5), Some(7), true, Some(installed), Some(IMAGE), clock)
  }

  const SEALED: State := Machine(multiset{Key(5)}, map[7 := Sealed(5, 2)], IMAGE, 3)

  lemma SealedIsSound()
    ensures Inv(ONLY_ROOT, SEALED) && Bootable(ONLY_ROOT, SEALED)
  {
    assert Parts(ONLY_ROOT) == [0];
    assert HasKey(SEALED, 0, 5);
  }

  /** A command that succeeds, and the rest of the run. */
  lemma Goes(c: Command, rest: seq<Command>, s: State, next: State)
    requires !c.RemoveBlanks? && Effect(ONLY_ROOT, c, s) == Some(next)
    ensures Run(ONLY_ROOT, [c] + rest, s).done <==> Run(ONLY_ROOT, rest, next).done
    ensures Run(ONLY_ROOT, rest, next).done ==>
      End(s, Run(ONLY_ROOT, [c] + rest, s)) == End(next, Run(ONLY_ROOT, rest, next))
  {
    hide Run, Cleared, Effect;
    Cons(ONLY_ROOT, c, rest, s);
    EndOfChain(s, Exec(ONLY_ROOT, c, s), Run(ONLY_ROOT, rest, next));
  }

  /** The old sealed object goes and the key file is sealed to the running image again. */
  lemma SealingGoes(slots: multiset<Slot>, tpm: map<nat, Sealed>, installed: Image, clock: nat, rest: seq<Command>)
    ensures
      var s := Machine(slots, tpm, installed, clock);
      var next := Machine(slots, tpm[7 := Sealed(5, 2)], installed, clock);
      (Run(ONLY_ROOT, SealSteps(Some(7), 7) + rest, s).done <==> Run(ONLY_ROOT, rest, next).done)
      && (Run(ONLY_ROOT, rest, next).done ==>
          End(s, Run(ONLY_ROOT, SealSteps(Some(7), 7) + rest, s)) == End(next, Run(ONLY_ROOT, rest, next)))
  {
    var s := Machine(slots, tpm, installed, clock);
    var gone := Machine(slots, tpm - {7}, installed, clock);
    var next := Machine(slots, tpm[7 := Sealed(5, 2)], installed, clock);
    hide Run;
    assert (tpm - {7})[7 := Sealed(5, 2)] == tpm[7 := Sealed(5, 2)];
    assert SealSteps(Some(7), 7) + rest == [Evict(7, true)] + ([Seal(7)] + rest);
    Goes(Evict(7, true), [Seal(7)] + rest, s, gone);
    Goes(Seal(7), rest, gone, next);
  }

  lemma SlotsBecome(slots: multiset<Slot>, more: multiset<Slot>, tpm: map<nat, Sealed>, installed: Image, clock: nat)
    ensures WithSlots(Machine(slots, tpm, installed, clock), 0, more) == Machine(more, tpm, installed, clock)
  {
    assert map[0 := Locked(1, slots)][0 := Locked(1, more)] == map[0 := Locked(1, more)];
  }

  const NEW_IMAGE: Image := Image(3, map[0 := 1], 7)

  lemma ImageIsInstalled(slots: multiset<Slot>, tpm: map<nat, Sealed>)
    ensures Effect(ONLY_ROOT, InstallImage(7), Machine(slots, tpm, IMAGE, 3)) == Some(Machine(slots, tpm, NEW_IMAGE, 4))
  {
    assert Parts(ONLY_ROOT) == [0] && Uuids(ONLY_ROOT, Machine(slots, tpm, IMAGE, 3)) == map[0 := 1];
  }

  lemma FilesAreThere(s: State)
    requires s.hook && s.script == Some(7)
    ensures Effect(ONLY_ROOT, WriteHook, s) == Effect(ONLY_ROOT, WriteScript(7), s) == Some(s)
  {
  }

  /** Script, hook and image after the blank password. */
  lemma FinishGoes()
    ensures var tpm := map[7 := Sealed(5, 2)];
      var s, t := Machine(multiset{Key(5), Blank}, tpm, IMAGE, 3), Machine(multiset{Key(5), Blank}, tpm, NEW_IMAGE, 4);
      Run(ONLY_ROOT, Finish(7), s).done && End(s, Run(ONLY_ROOT, Finish(7), s)) == t
  {
    var tpm := map[7 := Sealed(5, 2)];
    var s := Machine(multiset{Key(5), Blank}, tpm, IMAGE, 3);
    var t := Machine(multiset{Key(5), Blank}, tpm, NEW_IMAGE, 4);
    hide Run, Effect;
    Ends(t);
    ImageIsInstalled(s.vols[0].slots, tpm);
    FilesAreThere(s);
    Goes(InstallImage(7), [], s, t);
    Goes(WriteHook, [InstallImage(7)] + [], s, s);
    Goes(WriteScript(7), [WriteHook] + ([InstallImage(7)] + []), s, s);
    assert Finish(7) == [WriteScript(7)] + ([WriteHook] + ([InstallImage(7)] + []));
  }

  lemma BlankIsAdded(tpm: map<nat, Sealed>, installed: Image, clock: nat)
    ensures Effect(ONLY_ROOT, AddBlank(0, None), Machine(multiset{Key(5)}, tpm, installed, clock))
      == Some(Machine(multiset{Key(5), Blank}, tpm, installed, clock))
  {
    SlotsBecome(multiset{Key(5)}, multiset{Key(5), Blank}, tpm, installed, clock);
    assert multiset{Key(5)} + multiset{Blank} == multiset{Key(5), Blank};
  }

  /** The hook adds a blank password and installs a new image. */
  lemma HookGoes()
    ensures var r := Run(ONLY_ROOT, Program(ONLY_ROOT, UpdateHook(9), SEALED), SEALED);
      r.done && End(SEALED, r) == Machine(multiset{Key(5), Blank}, map[7 := Sealed(5, 2)], NEW_IMAGE, 4)
  {
    hide Run, SealSteps, Finish, Effect;
    var tpm := map[7 := Sealed(5, 2)];
    var steps := [AddBlank(0, None)] + Finish(7);
    FinishGoes();
    BlankIsAdded(tpm, IMAGE, 3);
    Goes(AddBlank(0, None), Finish(7), SEALED, Machine(multiset{Key(5), Blank}, tpm, IMAGE, 3));
    assert tpm[7 := Sealed(5, 2)] == tpm;
    SealingGoes(multiset{Key(5)}, tpm, IMAGE, 3, steps);
    SameSealSteps();
    assert Parts(ONLY_ROOT) == [0] && AddBlanks([0]) == [AddBlank(0, None)];
    assert Program(ONLY_ROOT, UpdateHook(9), SEALED) == SealSteps(Some(7), 7) + steps;
  }

  lemma SameSealSteps()
    ensures SealSteps(Some(7), 9) == SealSteps(Some(7), 7)
  {
  }

  lemma Ends(s: State)
    ensures Run(ONLY_ROOT, [], s) == Trace([], true)
  {
  }

  lemma BlankIsRemoved(tpm: map<nat, Sealed>, installed: Image, clock: nat)
    ensures Removals(Machine(multiset{Key(5), Blank}, tpm, installed, clock), 0)
      == Trace([Machine(multiset{Key(5)}, tpm, installed, clock)], true)
  {
    var s := Machine(multiset{Key(5), Blank}, tpm, installed, clock);
    var t := Machine(multiset{Key(5)}, tpm, installed, clock);
    SlotsBecome(multiset{Key(5), Blank}, multiset{Key(5)}, tpm, installed, clock);
    assert multiset{Key(5), Blank} - multiset{Blank} == multiset{Key(5)};
    assert Removals(t, 0) == Trace([], true);
  }

  /** The manual set up then seals to the image that still runs, and removes the blank password. */
  lemma ManualGoes()
    ensures var s := Machine(multiset{Key(5), Blank}, map[7 := Sealed(5, 2)], NEW_IMAGE, 4);
      var r := Run(ONLY_ROOT, Program(ONLY_ROOT, ManualSetup(9), s), s);
      r.done && End(s, r) == Machine(multiset{Key(5)}, map[7 := Sealed(5, 2)], NEW_IMAGE, 4)
  {
    var tpm := map[7 := Sealed(5, 2)];
    var s := Machine(multiset{Key(5), Blank}, tpm, NEW_IMAGE, 4);
    var t := Machine(multiset{Key(5)}, tpm, NEW_IMAGE, 4);
    hide Run, SealSteps, Removals, Effect, Cleared, Program;
    assert tpm[7 := Sealed(5, 2)] == tpm;
    BlankIsRemoved(tpm, NEW_IMAGE, 4);
    Ends(t);
    Cons(ONLY_ROOT, RemoveBlanks(0), [], s);
    assert [RemoveBlanks(0)] + [] == [RemoveBlanks(0)];
    SealingGoes(multiset{Key(5), Blank}, tpm, NEW_IMAGE, 4, [RemoveBlanks(0)]);
    ManualProgram(s);
  }

  lemma ManualProgram(s: State)
    requires s.running.Some? && s.hook && s.script == Some(7)
    ensures Program(ONLY_ROOT, ManualSetup(9), s) == SealSteps(Some(7), 7) + [RemoveBlanks(0)]
  {
    hide SealSteps;
    SameSealSteps();
    assert Parts(ONLY_ROOT) == [0] && RemoveAll([0]) == [RemoveBlanks(0)];
  }

  /** Both runs complete on a sealed machine that boots, and the machine does not boot any more. */
  lemma ManualTooEarlyHappens()
    ensures Inv(ONLY_ROOT, SEALED) && Bootable(ONLY_ROOT, SEALED)
    ensures var hook := Run(ONLY_ROOT, Program(ONLY_ROOT, UpdateHook(9), SEALED), SEALED);
      var s := End(SEALED, hook);
      var manual := Run(ONLY_ROOT, Program(ONLY_ROOT, ManualSetup(9), s), s);
      hook.done && manual.done && !Bootable(ONLY_ROOT, End(s, manual))
  {
    hide Run, Program, Bootable, Inv;
    SealedIsSound();
    HookGoes();
    ManualGoes();
    ManualTooEarly(ONLY_ROOT, 9, 9, SEALED);
  }
}
