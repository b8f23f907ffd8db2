/** The runs of AutoTpmEncrypt as they go, command by command, on the machine they change. */
module LuksMachine {
  import opened Core
  import opened Luks
  import opened LuksSafety

  lemma Snoc(l: Layout, program: seq<Command>, c: Command, s: State)
    requires Run(l, program, s).done
    ensures Run(l, program + [c], s) == Chain(Run(l, program, s), Exec(l, c, End(s, Run(l, program, s))))
    ensures End(s, Run(l, program + [c], s)) == End(End(s, Run(l, program, s)), Exec(l, c, End(s, Run(l, program, s))))
  {
    hide Run, Cleared, Exec;
    var t := End(s, Run(l, program, s));
    Concat(l, program, [c], s);
    Cons(l, c, [], t);
    assert [c] + [] == [c];
    Nothing(l, End(t, Exec(l, c, t)));
    EndOfChain(s, Run(l, program, s), Exec(l, c, t));
  }

  /** A run ends where a command fails, whatever would have come next. */
  lemma Stopped(l: Layout, prefix: seq<Command>, rest: seq<Command>, s: State)
    requires !Run(l, prefix, s).done
    ensures Run(l, prefix + rest, s) == Run(l, prefix, s)
  {
    hide Run, Cleared;
    Concat(l, prefix, rest, s);
  }

  lemma {:induction false} RemovalsLeaveScript(s: State, p: Part)
    ensures End(s, Removals(s, p)).script == s.script
    decreases if IsLocked(s, p) then s.vols[p].slots[Blank] else 0
  {
    if HasBlank(s, p) {
      var next := WithSlots(s, p, s.vols[p].slots - multiset{Blank});
      RemovalsLeaveScript(next, p);
      EndOfCons(s, next, Removals(next, p));
    }
  }

  lemma ScriptStays(l: Layout, c: Command, s: State)
    requires !c.WriteScript? && !c.RemoveScript?
    ensures End(s, Exec(l, c, s)).script == s.script
  {
    if c.RemoveBlanks? {
      RemovalsLeaveScript(s, c.part);
    }
  }

  lemma FirstRemoval(s: State, p: Part)
    ensures !IsLocked(s, p) ==> Removals(s, p) == Trace([], false)
    ensures IsLocked(s, p) && !HasBlank(s, p) ==> Removals(s, p) == Trace([], true)
    ensures HasBlank(s, p) ==>
      var next := WithSlots(s, p, s.vols[p].slots - multiset{Blank});
      Removals(s, p) == Trace([next] + Removals(next, p).states, Removals(next, p).done)
  {
  }

  class Machine {
    const layout: Layout
    var state: State
    /** All states passed, one for each step. */
    ghost var log: seq<State>

    constructor (layout: Layout, state: State)
      ensures this.layout == layout && this.state == state && log == []
    {
      this.layout := layout;
      this.state := state;
      log := [];
    }

    /** Since state `s` and log `past`, `program` has run and come to its end. */
    ghost predicate Ran(program: seq<Command>, s: State, past: seq<State>)
      reads this
    {
      var t := Run(layout, program, s);
      t.done && state == End(s, t) && log == past + t.states
    }

    /** Since state `s` and log `past`, `program` has run, to its end just when `ok`. */
    ghost predicate Did(program: seq<Command>, s: State, past: seq<State>, ok: bool)
      reads this
    {
      var t := Run(layout, program, s);
      t.done == ok && state == End(s, t) && log == past + t.states
    }

    /** `remove_blank_password`. */
    method RemoveBlankPassword(p: Part) returns (ok: bool)
      modifies this
      ensures var t := Removals(old(state), p);
        ok == t.done && state == End(old(state), t) && log == old(log) + t.states
    {
      hide Removals;
      ghost var passed: seq<State> := [];
      while true
        invariant log == old(log) + passed
        invariant Removals(old(state), p) == Trace(passed + Removals(state, p).states, Removals(state, p).done)
        invariant state == End(old(state), Trace(passed, true))
        decreases if IsLocked(state, p) then state.vols[p].slots[Blank] else 0
      {
        FirstRemoval(state, p);
        if !IsLocked(state, p) {
          assert passed + [] == passed;
          return false;
        }
        if Blank !in state.vols[p].slots {
          assert passed + [] == passed;
          return true;
        }
        state := WithSlots(state, p, state.vols[p].slots - multiset{Blank});
        assert passed + ([state] + Removals(state, p).states) == passed + [state] + Removals(state, p).states;
        passed := passed + [state];
        log := log + [state];
      }
    }

    method Perform(c: Command) returns (ok: bool)
      modifies this
      ensures var t := Exec(layout, c, old(state));
        ok == t.done && state == End(old(state), t) && log == old(log) + t.states
    {
      if c.RemoveBlanks? {
        ok := RemoveBlankPassword(c.part);
      } else {
        var next := Effect(layout, c, state);
        ok := next.Some?;
        if ok {
          state := next.value;
          log := log + [state];
        }
      }
    }

    /** One more command of a run. */
    method Step(c: Command, ghost prefix: seq<Command>, ghost s: State, ghost past: seq<State>) returns (ok: bool)
      requires Ran(prefix, s, past)
      modifies this
      ensures Did(prefix + [c], s, past, ok)
      ensures !c.WriteScript? && !c.RemoveScript? ==> state.script == old(state).script
    {
      hide Run, Exec;
      Snoc(layout, prefix, c, s);
      if !c.WriteScript? && !c.RemoveScript? {
        ScriptStays(layout, c, state);
      }
      ok := Perform(c);
    }

    /** One command of the run `whole`, of which `prefix` is done; a failure ends the run. */
    method Next(c: Command, ghost whole: seq<Command>, ghost prefix: seq<Command>, ghost rest: seq<Command>,
                ghost s: State, ghost past: seq<State>)
      returns (ok: bool)
      requires Ran(prefix, s, past) && whole == prefix + [c] + rest
      modifies this
      ensures if ok then Ran(prefix + [c], s, past) else Did(whole, s, past, false)
      ensures !c.WriteScript? && !c.RemoveScript? ==> state.script == old(state).script
    {
      ok := Step(c, prefix, s, past);
      if !ok {
        Stopped(layout, prefix + [c], rest, s);
      }
    }

    /** Out with the old sealed object, if the hooks name one, and in with the new. */
    method SealKey(script: Option<nat>, a: nat, ghost whole: seq<Command>, ghost rest: seq<Command>)
      returns (ok: bool)
      requires script.Some? ==> a == script.value
      requires whole == SealSteps(script, a) + rest
      modifies this
      ensures if ok then Ran(SealSteps(script, a), old(state), old(log)) else Did(whole, old(state), old(log), false)
    {
      hide Run, Exec, Effect;
      ghost var s, past := state, log;
      ghost var done: seq<Command> := [];
      Nothing(layout, s);
      if script.Some? {
        assert whole == done + [Evict(a, true)] + ([Seal(a)] + rest);
        ok := Next(Evict(a, true), whole, done, [Seal(a)] + rest, s, past);
        if !ok {
          return;
        }
        done := done + [Evict(a, true)];
      }
      assert done + [Seal(a)] == SealSteps(script, a);
      ok := Next(Seal(a), whole, done, rest, s, past);
    }

    /** The loop that adds or removes the blank passwords. */
    method ChangeSlots(wasAutorun: bool, parts: seq<Part>, ghost whole: seq<Command>, ghost prefix: seq<Command>,
                       ghost tail: seq<Command>, ghost s: State, ghost past: seq<State>)
      returns (ok: bool)
      requires Ran(prefix, s, past) && whole == prefix + SlotSteps(wasAutorun, parts) + tail
      modifies this
      ensures if ok then Ran(prefix + SlotSteps(wasAutorun, parts), s, past) else Did(whole, s, past, false)
    {
      hide Run, Exec, Effect, SlotSteps;
      ghost var done := prefix;
      ok := true;
      var i := 0;
      while i < |parts|
        invariant 0 <= i <= |parts| && ok
        invariant prefix + SlotSteps(wasAutorun, parts) == done + SlotSteps(wasAutorun, parts[i..])
        invariant Ran(done, s, past)
      {
        var c := if wasAutorun then AddBlank(parts[i], None) else RemoveBlanks(parts[i]);
        ghost var rest := SlotSteps(wasAutorun, parts[i + 1..]);
        FirstSlotStep(wasAutorun, parts[i..]);
        assert parts[i..][1..] == parts[i + 1..];
        assert whole == done + [c] + (rest + tail);
        ok := Next(c, whole, done, rest + tail, s, past);
        if !ok {
          return;
        }
        done := done + [c];
        i := i + 1;
      }
      NoSlotSteps(wasAutorun);
      assert parts[i..] == [] && done + [] == done;
    }

    /** `setup_auto_tpm_decrypt` as far as it concerns slots, TPM and boot image. */
    method Setup(wasAutorun: bool, free: nat) returns (ok: bool)
      modifies this
      ensures var script := old(state).script;
        Did(SealSteps(script, AddressOf(script, free)) + SlotSteps(wasAutorun, Parts(layout))
          + (if wasAutorun then Finish(AddressOf(script, free)) else []), old(state), old(log), ok)
    {
      hide Run, Exec, Effect, SlotSteps, SealSteps, Finish, Parts;
      ghost var s, past := state, log;
      var script, parts := state.script, Parts(layout);
      var a := AddressOf(script, free);
      ghost var tail := if wasAutorun then Finish(a) else [];
      ghost var whole := SealSteps(script, a) + SlotSteps(wasAutorun, parts) + tail;
      assert whole == SealSteps(script, a) + (SlotSteps(wasAutorun, parts) + tail);
      ok := SealKey(script, a, whole, SlotSteps(wasAutorun, parts) + tail);
      if !ok {
        return;
      }
      ok := ChangeSlots(wasAutorun, parts, whole, SealSteps(script, a), tail, s, past);
      if !ok {
        return;
      }
      if wasAutorun {
        ok := Install(a, whole, SealSteps(script, a) + SlotSteps(wasAutorun, parts), s, past);
      } else {
        assert whole == SealSteps(script, a) + SlotSteps(wasAutorun, parts);
      }
    }

    /** Script, hook and image, in this order. */
    method Install(a: nat, ghost whole: seq<Command>, ghost done: seq<Command>, ghost s: State, ghost past: seq<State>)
      returns (ok: bool)
      requires Ran(done, s, past) && whole == done + Finish(a)
      modifies this
      ensures Did(whole, s, past, ok)
    {
      hide Run, Exec, Effect;
      assert whole == done + [WriteScript(a)] + [WriteHook, InstallImage(a)];
      ok := Next(WriteScript(a), whole, done, [WriteHook, InstallImage(a)], s, past);
      if ok {
        assert whole == done + [WriteScript(a)] + [WriteHook] + [InstallImage(a)];
        ok := Next(WriteHook, whole, done + [WriteScript(a)], [InstallImage(a)], s, past);
        if ok {
          assert whole == done + [WriteScript(a)] + [WriteHook] + [InstallImage(a)] + [];
          ok := Next(InstallImage(a), whole, done + [WriteScript(a)] + [WriteHook], [], s, past);
          assert whole == done + [WriteScript(a)] + [WriteHook] + [InstallImage(a)];
        }
      }
    }

    /** The set up of the chroot, within the run `whole`. */
    method ChrootSetup(free: nat, ghost whole: seq<Command>, ghost prefix: seq<Command>, ghost rest: seq<Command>,
                       ghost s: State, ghost past: seq<State>)
      returns (ok: bool)
      requires Ran(prefix, s, past) && whole == prefix + AutoSetup(layout, state.script, free) + rest
      modifies this
      ensures
        if ok then Ran(prefix + AutoSetup(layout, old(state).script, free), s, past)
        else Did(whole, s, past, false)
    {
      hide Run, Exec, AutoSetup, SealSteps, SlotSteps, Finish;
      ghost var steps, t := AutoSetup(layout, state.script, free), state;
      AutoSetupIs(layout, state.script, free);
      Concat(layout, prefix, steps, s);
      EndOfChain(s, Run(layout, prefix, s), Run(layout, steps, t));
      ok := Setup(true, free);
      if !ok {
        Stopped(layout, prefix + steps, rest, s);
      }
    }

    /** One turn of the loop of `encrypt`. */
    method EncryptPart(p: Part, key: nat, free: nat, ghost whole: seq<Command>, ghost prefix: seq<Command>,
                       ghost rest: seq<Command>, ghost s: State, ghost past: seq<State>)
      returns (ok: bool, ghost done: seq<Command>)
      requires Ran(prefix, s, past) && whole == prefix + LockSteps(layout, p, key, state.script, free) + rest
      modifies this
      ensures if ok then Ran(done, s, past) && done + rest == whole else Did(whole, s, past, false)
      ensures ok && p != layout.root ==> state.script == old(state).script
    {
      hide Run, Exec, AutoSetup;
      ghost var root := if p == layout.root then [CopyKey(key)] + AutoSetup(layout, state.script, free) else [];
      done := prefix;
      assert whole == done + [CheckPlain(p)] + ([Reencrypt(p), AddKey(p, key)] + root + rest);
      ok := Next(CheckPlain(p), whole, done, [Reencrypt(p), AddKey(p, key)] + root + rest, s, past);
      if !ok {
        return;
      }
      done := done + [CheckPlain(p)];
      assert whole == done + [Reencrypt(p)] + ([AddKey(p, key)] + root + rest);
      ok := Next(Reencrypt(p), whole, done, [AddKey(p, key)] + root + rest, s, past);
      if !ok {
        return;
      }
      done := done + [Reencrypt(p)];
      assert whole == done + [AddKey(p, key)] + (root + rest);
      ok := Next(AddKey(p, key), whole, done, root + rest, s, past);
      if !ok {
        return;
      }
      done := done + [AddKey(p, key)];
      assert whole == done + root + rest;
      if p == layout.root {
        ghost var steps := AutoSetup(layout, state.script, free);
        assert whole == done + [CopyKey(key)] + (steps + rest);
        ok := Next(CopyKey(key), whole, done, steps + rest, s, past);
        if !ok {
          return;
        }
        done := done + [CopyKey(key)];
        assert whole == done + steps + rest;
        ok := ChrootSetup(free, whole, done, rest, s, past);
        done := done + steps;
      } else {
        assert done + root == done;
      }
    }

    /** `encrypt`. */
    method Encrypt(key: nat, free: nat) returns (ok: bool)
      requires Accepted(layout, state, false)
      modifies this
      ensures Did(Program(layout, Op.Encrypt(key, free), old(state)), old(state), old(log), ok)
    {
      hide Run, Exec, LockSteps, Effect, AutoSetup, EncryptOrder, EncryptParts;
      ghost var s, past := state, log;
      var order := EncryptOrder(layout);
      ghost var rest := EncryptParts(layout, order, key, s.script, free);
      ghost var whole := [WriteBackup(key)] + rest;
      ghost var done: seq<Command> := [];
      Nothing(layout, s);
      assert whole == done + [WriteBackup(key)] + rest;
      ok := Next(WriteBackup(key), whole, done, rest, s, past);
      if !ok {
        return;
      }
      done := done + [WriteBackup(key)];
      var i := 0;
      while i < |order|
        invariant 0 <= i <= |order| && ok
        invariant Ran(done, s, past) && whole == done + EncryptParts(layout, order[i..], key, s.script, free)
        invariant i < |order| ==> state.script == s.script
      {
        rest := EncryptParts(layout, order[i + 1..], key, s.script, free);
        assert order[i..][1..] == order[i + 1..];
        FirstParts(layout, order[i..], key, s.script, free);
        assert whole == done + LockSteps(layout, order[i], key, s.script, free) + rest;
        ok, done := EncryptPart(order[i], key, free, whole, done, rest, s, past);
        if !ok {
          return;
        }
        i := i + 1;
        RootComesLast(layout, i);
      }
      assert order[i..] == [];
      NoParts(layout, key, s.script, free);
      assert whole == done;
    }

    /** What `decrypt` does to the decrypted root file system and the TPM. */
    method CleanRoot(ghost whole: seq<Command>, ghost prefix: seq<Command>, ghost rest: seq<Command>,
                     ghost s: State, ghost past: seq<State>)
      returns (ok: bool)
      requires Ran(prefix, s, past) && whole == prefix + CleanUp(state.script) + rest
      modifies this
      ensures if ok then Ran(prefix + CleanUp(old(state).script), s, past) else Did(whole, s, past, false)
    {
      hide Run, Exec;
      var script := state.script;
      ghost var done := prefix;
      if script.Some? {
        assert whole == done + [Command.Evict(script.value, false)] + ([RemoveScript, RemoveHook] + rest);
        ok := Next(Command.Evict(script.value, false), whole, done, [RemoveScript, RemoveHook] + rest, s, past);
        if !ok {
          return;
        }
        done := done + [Command.Evict(script.value, false)];
      }
      assert whole == done + [RemoveScript] + ([RemoveHook] + rest);
      ok := Next(RemoveScript, whole, done, [RemoveHook] + rest, s, past);
      if !ok {
        return;
      }
      done := done + [RemoveScript];
      assert whole == done + [RemoveHook] + rest;
      ok := Next(RemoveHook, whole, done, rest, s, past);
      assert done + [RemoveHook] == prefix + CleanUp(script);
    }

    /** One turn of the loop of `decrypt`. */
    method StripPart(p: Part, key: nat, ghost whole: seq<Command>, ghost prefix: seq<Command>,
                     ghost rest: seq<Command>, ghost s: State, ghost past: seq<State>)
      returns (ok: bool, ghost done: seq<Command>)
      requires Ran(prefix, s, past) && whole == prefix + StripSteps(layout, p, key, state.script) + rest
      modifies this
      ensures if ok then Ran(done, s, past) && done + rest == whole else Did(whole, s, past, false)
      ensures ok && p != layout.root ==> state.script == old(state).script
    {
      hide Run, Exec, CleanUp;
      ghost var root := if p == layout.root then CleanUp(state.script) else [];
      done := prefix;
      assert whole == done + [RemoveBlanks(p)] + ([ConvertSlots(p, key), DecryptPart(p, key)] + root + rest);
      ok := Next(RemoveBlanks(p), whole, done, [ConvertSlots(p, key), DecryptPart(p, key)] + root + rest, s, past);
      if !ok {
        return;
      }
      done := done + [RemoveBlanks(p)];
      assert whole == done + [ConvertSlots(p, key)] + ([DecryptPart(p, key)] + root + rest);
      ok := Next(ConvertSlots(p, key), whole, done, [DecryptPart(p, key)] + root + rest, s, past);
      if !ok {
        return;
      }
      done := done + [ConvertSlots(p, key)];
      assert whole == done + [DecryptPart(p, key)] + (root + rest);
      ok := Next(DecryptPart(p, key), whole, done, root + rest, s, past);
      if !ok {
        return;
      }
      done := done + [DecryptPart(p, key)];
      assert whole == done + root + rest;
      if p == layout.root {
        ok := CleanRoot(whole, done, rest, s, past);
        done := done + root;
      } else {
        assert done + root == done;
      }
    }

    /** `decrypt`; the script in the root file system is read when root's turn comes, which is first. */
    method Decrypt(key: nat) returns (ok: bool)
      requires Accepted(layout, state, true)
      modifies this
      ensures Did(Program(layout, Op.Decrypt(key), old(state)), old(state), old(log), ok)
    {
      hide Run, Exec, StripSteps, Effect, DecryptParts, Parts;
      ghost var s, past := state, log;
      var order := Parts(layout);
      ghost var rest := DecryptParts(layout, order, key, s.script);
      ghost var whole := [OpenWith(layout.root, key)] + rest;
      ghost var done: seq<Command> := [];
      Nothing(layout, s);
      assert whole == done + [OpenWith(layout.root, key)] + rest;
      ok := Next(OpenWith(layout.root, key), whole, done, rest, s, past);
      if !ok {
        return;
      }
      done := done + [OpenWith(layout.root, key)];
      var i := 0;
      while i < |order|
        invariant 0 <= i <= |order| && ok
        invariant Ran(done, s, past) && whole == done + DecryptParts(layout, order[i..], key, s.script)
        invariant i == 0 ==> state.script == s.script
      {
        rest := DecryptParts(layout, order[i + 1..], key, s.script);
        RootComesFirst(layout, i);
        assert order[i..][1..] == order[i + 1..];
        FirstParts(layout, order[i..], key, s.script, 0);
        ScriptMatters(layout, order[i], key, s.script, state.script);
        assert whole == done + StripSteps(layout, order[i], key, state.script) + rest;
        ok, done := StripPart(order[i], key, whole, done, rest, s, past);
        if !ok {
          return;
        }
        i := i + 1;
      }
      assert order[i..] == [];
      NoParts(layout, key, s.script, 0);
      assert whole == done;
    }

    /** The menu entry `encrypt_or_decrypt`: what root is decides, and the other partitions must agree. */
    method EncryptOrDecrypt(key: nat, free: nat) returns (ok: bool)
      modifies this
      ensures var op := if IsLocked(old(state), layout.root) then Op.Decrypt(key) else Op.Encrypt(key, free);
        Did(Program(layout, op, old(state)), old(state), old(log), ok)
    {
      hide Run, EncryptParts, DecryptParts;
      if !Accepted(layout, state, IsLocked(state, layout.root)) {
        DieRuns(layout, state);
        return false;
      }
      if IsLocked(state, layout.root) {
        ok := Decrypt(key);
      } else {
        ok := Encrypt(key, free);
      }
    }

    /** The menu entry `setup_auto_tpm_decrypt` of the running system, and its update hook. */
    method SetupRunningSystem(wasAutorun: bool, free: nat) returns (ok: bool)
      modifies this
      ensures var op := if wasAutorun then UpdateHook(free) else ManualSetup(free);
        Did(Program(layout, op, old(state)), old(state), old(log), ok)
    {
      hide Run, AutoSetup, SealSteps, Finish, RemoveAll, AddBlanks;
      var script := state.script;
      if state.running == None || !state.hook {
        DieRuns(layout, state);
        return false;
      }
      AutoSetupIs(layout, script, free);
      ManualSetupIs(layout, script, free);
      ok := Setup(wasAutorun, free);
    }

    /** `add_blank_password`. */
    method AddBlankPassword(p: Part, key: nat) returns (ok: bool)
      modifies this
      ensures Did(Program(layout, AddBlankTo(p, key), old(state)), old(state), old(log), ok)
    {
      hide Run, Exec;
      Nothing(layout, state);
      ghost var c := AddBlank(p, Some(key));
      assert [] + [c] == [c];
      ok := Step(AddBlank(p, Some(key)), [], state, log);
    }
  }

  /** The blank slots of a set up: added when it runs by itself, removed when the user runs it. */
  function SlotSteps(wasAutorun: bool, parts: seq<Part>): seq<Command> {
    if wasAutorun then AddBlanks(parts) else RemoveAll(parts)
  }

  lemma FirstSlotStep(wasAutorun: bool, parts: seq<Part>)
    requires parts != []
    ensures SlotSteps(wasAutorun, parts) ==
      [if wasAutorun then AddBlank(parts[0], None) else RemoveBlanks(parts[0])] + SlotSteps(wasAutorun, parts[1..])
  {
  }

  lemma NoSlotSteps(wasAutorun: bool)
    ensures SlotSteps(wasAutorun, []) == []
  {
  }

  lemma AutoSetupIs(l: Layout, script: Option<nat>, free: nat)
    ensures AutoSetup(l, script, free) ==
      SealSteps(script, AddressOf(script, free)) + SlotSteps(true, Parts(l)) + Finish(AddressOf(script, free))
  {
  }

  lemma FirstParts(l: Layout, parts: seq<Part>, key: nat, script: Option<nat>, free: nat)
    requires parts != []
    ensures EncryptParts(l, parts, key, script, free) ==
      LockSteps(l, parts[0], key, script, free) + EncryptParts(l, parts[1..], key, script, free)
    ensures DecryptParts(l, parts, key, script) ==
      StripSteps(l, parts[0], key, script) + DecryptParts(l, parts[1..], key, script)
  {
    hide LockSteps, StripSteps;
  }

  lemma ScriptMatters(l: Layout, p: Part, key: nat, script: Option<nat>, now: Option<nat>)
    requires p == l.root ==> now == script
    ensures StripSteps(l, p, key, now) == StripSteps(l, p, key, script)
  {
  }

  lemma NoParts(l: Layout, key: nat, script: Option<nat>, free: nat)
    ensures EncryptParts(l, [], key, script, free) == [] && DecryptParts(l, [], key, script) == []
  {
  }

  lemma RootComesFirst(l: Layout, i: nat)
    requires i < |Parts(l)| && l.home != Some(l.root) && l.varPart != Some(l.root)
    ensures i > 0 ==> Parts(l)[i] != l.root
  {
  }

  lemma RootComesLast(l: Layout, i: nat)
    requires 0 < i <= |EncryptOrder(l)| && l.home != Some(l.root) && l.varPart != Some(l.root)
    ensures i < |EncryptOrder(l)| ==> EncryptOrder(l)[i - 1] != l.root
  {
  }

  lemma ManualSetupIs(l: Layout, script: Option<nat>, free: nat)
    ensures SealSteps(script, free) + RemoveAll(Parts(l)) ==
      SealSteps(script, AddressOf(script, free)) + SlotSteps(false, Parts(l)) + []
  {
  }
}
