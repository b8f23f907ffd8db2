/** Whatever is run and wherever it is stopped, no encrypted partition is ever lost. */
module LuksSafety {
  import opened Core
  import opened Luks

  // ---------------------------------------------------------------------------------------------
  // What always holds
  // ---------------------------------------------------------------------------------------------

  /** Every encrypted partition opens with the blank password or with a key that is backed up. */
  ghost predicate Recoverable(s: State) {
    forall p :: IsLocked(s, p) ==> HasBlank(s, p) || exists k :: k in s.backups && HasKey(s, p, k)
  }

  /** The backup of a key comes before its slots. */
  ghost predicate BackedUp(s: State) {
    forall p, k :: HasKey(s, p, k) ==> k in s.backups
  }

  /** The root partition gets its key after the others. */
  ghost predicate RootLast(l: Layout, s: State) {
    forall k, p :: HasKey(s, l.root, k) && p in Parts(l) ==> HasKey(s, p, k)
  }

  /** What an image that finds the root partition can rely on. */
  ghost predicate Fits(l: Layout, s: State, i: Image) {
    FindsRoot(l, s, i) ==>
      && s.script == Some(i.address)
      && s.keyFile.Some? && HasKey(s, l.root, s.keyFile.value)
      && forall p :: p in Parts(l) ==> IsLocked(s, p) && p in i.uuids && i.uuids[p] == s.vols[p].uuid
  }

  ghost predicate ImagesFit(l: Layout, s: State) {
    && (s.installed.Some? ==> Fits(l, s, s.installed.value))
    && (s.running.Some? ==> Fits(l, s, s.running.value) && FindsRoot(l, s, s.running.value))
  }

  predicate OlderImage(s: State, i: Image) {
    i.build < s.clock && forall p :: p in i.uuids ==> i.uuids[p] < s.clock
  }

  /** Identifiers are given out once. */
  ghost predicate Fresh(s: State) {
    && s.clock > RECOVERY
    && (forall p :: IsLocked(s, p) ==> s.vols[p].uuid < s.clock)
    && (s.installed.Some? ==> OlderImage(s, s.installed.value))
    && (s.running.Some? ==> OlderImage(s, s.running.value))
  }

  ghost predicate Inv(l: Layout, s: State) {
    Recoverable(s) && BackedUp(s) && RootLast(l, s) && ImagesFit(l, s) && Fresh(s)
  }

  /** A machine that the tool has not been used on. */
  predicate Pristine(s: State) {
    && (forall p :: p in s.vols ==> s.vols[p].Plain?)
    && s.installed == None && s.running == None && s.clock > RECOVERY
  }

  lemma PristineKeeps(l: Layout, s: State)
    requires Pristine(s)
    ensures Inv(l, s)
  {
  }

  // ---------------------------------------------------------------------------------------------
  // One command
  // ---------------------------------------------------------------------------------------------

  ghost predicate SomeKey(s: State, p: Part) {
    exists k :: HasKey(s, p, k)
  }

  /** When a command may be given. */
  ghost predicate Allowed(l: Layout, c: Command, s: State) {
    match c
    case AddKey(p, k) => k in s.backups && (p == l.root ==> forall q :: q in Parts(l) && q != p ==> HasKey(s, q, k))
    case CopyKey(k) => HasKey(s, l.root, k)
    case RemoveBlanks(p) => IsLocked(s, p) ==> SomeKey(s, p)
    case WriteScript(a) =>
      && (s.installed.Some? && FindsRoot(l, s, s.installed.value) ==> s.installed.value.address == a)
      && (s.running.Some? && FindsRoot(l, s, s.running.value) ==> s.running.value.address == a)
    case InstallImage(a) => s.script == Some(a) && s.keyFile.Some? && HasKey(s, l.root, s.keyFile.value)
    case DecryptPart(p, k) => s.running == None && (p in Parts(l) ==> p == l.root || !IsLocked(s, l.root))
    case RemoveScript => !IsLocked(s, l.root)
    case _ => true
  }

  /** What adding to the slots of a partition does to the partitions' keys. */
  lemma AddedSlots(s: State, p: Part, more: multiset<Slot>)
    requires IsLocked(s, p)
    ensures var next := WithSlots(s, p, s.vols[p].slots + more);
      && (forall q :: IsLocked(next, q) <==> IsLocked(s, q))
      && (forall q :: IsLocked(s, q) ==> next.vols[q].uuid == s.vols[q].uuid)
      && (forall q, k :: HasKey(s, q, k) ==> HasKey(next, q, k))
      && (forall q, k :: HasKey(next, q, k) ==> HasKey(s, q, k) || (q == p && Key(k) in more))
      && (forall q :: HasBlank(s, q) ==> HasBlank(next, q))
  {
  }

  lemma KeysKeepLaws(l: Layout, s: State, p: Part, more: multiset<Slot>)
    requires Inv(l, s) && IsLocked(s, p)
    requires forall k :: Key(k) in more ==> k in s.backups
    requires p == l.root ==> forall k, q :: Key(k) in more && q in Parts(l) && q != p ==> HasKey(s, q, k)
    ensures Inv(l, WithSlots(s, p, s.vols[p].slots + more))
  {
    hide IsLocked, HasKey, HasBlank, Parts;
    AddedSlots(s, p, more);
  }

  lemma ReencryptKeeps(l: Layout, s: State, p: Part)
    requires Inv(l, s) && IsPlain(s, p)
    ensures Inv(l, s.(vols := s.vols[p := Locked(s.clock, multiset{Blank})], clock := s.clock + 1))
  {
    hide Parts;
    var next := s.(vols := s.vols[p := Locked(s.clock, multiset{Blank})], clock := s.clock + 1);
    assert HasBlank(next, p);
    assert forall q, k :: HasKey(next, q, k) <==> HasKey(s, q, k);
    assert forall q :: q != p ==> (IsLocked(next, q) <==> IsLocked(s, q)) && (HasBlank(next, q) <==> HasBlank(s, q));
    assert RootLast(l, next);
  }

  lemma DecryptPartKeeps(l: Layout, s: State, p: Part, k: nat)
    requires Inv(l, s) && Allowed(l, DecryptPart(p, k), s)
    ensures Inv(l, s.(vols := s.vols[p := Plain]))
  {
    hide Parts;
    var next := s.(vols := s.vols[p := Plain]);
    assert forall q, k :: HasKey(next, q, k) ==> HasKey(s, q, k);
    assert forall q, k :: q != p && HasKey(s, q, k) ==> HasKey(next, q, k);
    assert forall q :: q != p ==> (IsLocked(next, q) <==> IsLocked(s, q)) && (HasBlank(next, q) <==> HasBlank(s, q));
    assert RootLast(l, next);
  }

  /** Commands that leave the partitions and the clock alone. */
  lemma SameVolsKeep(l: Layout, s: State, next: State)
    requires Inv(l, s) && next.vols == s.vols && s.backups <= next.backups && next.clock == s.clock
    requires next.installed == s.installed && (next.running == s.running || next.running == None)
    requires s.installed.Some? ==> Fits(l, next, s.installed.value)
    requires next.running.Some? ==> Fits(l, next, next.running.value)
    ensures Inv(l, next)
  {
    hide Parts;
    assert forall q, k :: HasKey(next, q, k) <==> HasKey(s, q, k);
    assert forall q :: (IsLocked(next, q) <==> IsLocked(s, q)) && (HasBlank(next, q) <==> HasBlank(s, q));
  }

  lemma InstallKeeps(l: Layout, s: State, a: nat)
    requires Inv(l, s) && Allowed(l, InstallImage(a), s)
    requires forall p :: p in Parts(l) ==> IsLocked(s, p)
    ensures Inv(l, s.(installed := Some(Image(s.clock, Uuids(l, s), a)), clock := s.clock + 1))
  {
    hide Parts;
    var i := Image(s.clock, Uuids(l, s), a);
    var next := s.(installed := Some(i), clock := s.clock + 1);
    assert forall q, k :: HasKey(next, q, k) <==> HasKey(s, q, k);
    assert forall q :: (IsLocked(next, q) <==> IsLocked(s, q)) && (HasBlank(next, q) <==> HasBlank(s, q));
    assert Fits(l, next, i);
  }

  lemma EffectKeeps(l: Layout, c: Command, s: State)
    requires Inv(l, s) && Allowed(l, c, s)
    requires !c.RemoveBlanks? && Effect(l, c, s).Some?
    ensures Inv(l, Effect(l, c, s).value)
  {
    hide Parts, Inv, Fits;
    InvGives(l, s);
    match c
    case Reencrypt(p) => ReencryptKeeps(l, s, p);
    case AddKey(p, k) => KeysKeepLaws(l, s, p, multiset{Key(k)});
    case AddBlank(p, from) => KeysKeepLaws(l, s, p, multiset{Blank});
    case DecryptPart(p, k) => DecryptPartKeeps(l, s, p, k);
    case InstallImage(a) => InstallKeeps(l, s, a);
    case Boot => BootKeeps(l, s);
    case CopyKey(k) => CopyKeeps(l, s, k);
    case WriteScript(a) => ScriptKeeps(l, s, Some(a));
    case RemoveScript => ScriptKeeps(l, s, None);
    case _ => OthersKeep(l, c, s);
  }

  lemma InvGives(l: Layout, s: State)
    requires Inv(l, s)
    ensures s.installed.Some? ==> Fits(l, s, s.installed.value)
    ensures s.running.Some? ==> Fits(l, s, s.running.value)
  {
  }

  lemma BootKeeps(l: Layout, s: State)
    requires Inv(l, s) && s.installed.Some? && FindsRoot(l, s, s.installed.value)
    ensures Inv(l, s.(running := s.installed))
  {
    hide Parts;
    var next := s.(running := s.installed);
    assert forall q, k :: HasKey(next, q, k) <==> HasKey(s, q, k);
    assert forall q :: (IsLocked(next, q) <==> IsLocked(s, q)) && (HasBlank(next, q) <==> HasBlank(s, q));
    assert Fits(l, next, s.installed.value);
  }

  lemma CopyKeeps(l: Layout, s: State, k: nat)
    requires Inv(l, s) && HasKey(s, l.root, k)
    ensures Inv(l, s.(keyFile := Some(k)))
  {
    hide Parts, Inv;
    InvGives(l, s);
    SameVolsKeep(l, s, s.(keyFile := Some(k)));
  }

  lemma ScriptKeeps(l: Layout, s: State, script: Option<nat>)
    requires Inv(l, s)
    requires script.Some? ==> Allowed(l, WriteScript(script.value), s)
    requires script == None ==> !IsLocked(s, l.root)
    ensures Inv(l, s.(script := script))
  {
    hide Parts, Inv;
    InvGives(l, s);
    SameVolsKeep(l, s, s.(script := script));
  }

  lemma OthersKeep(l: Layout, c: Command, s: State)
    requires Inv(l, s)
    requires c.WriteBackup? || c.CheckPlain? || c.Evict? || c.Seal? || c.WriteHook? || c.OpenWith? || c.ConvertSlots?
      || c.RemoveHook? || c.BootRecovery?
    requires Effect(l, c, s).Some?
    ensures Inv(l, Effect(l, c, s).value)
  {
    hide Parts, Inv;
    InvGives(l, s);
    SameVolsKeep(l, s, Effect(l, c, s).value);
  }

  // ---------------------------------------------------------------------------------------------
  // Lists of commands
  // ---------------------------------------------------------------------------------------------

  ghost predicate AllInv(l: Layout, t: Trace) {
    forall i :: 0 <= i < |t.states| ==> Inv(l, t.states[i])
  }

  /** The same partitions are locked, as the same volumes, and open with the same keys. */
  ghost predicate SameKeys(s: State, t: State) {
    && t == s.(vols := t.vols)
    && (forall p :: IsLocked(s, p) <==> IsLocked(t, p))
    && (forall p :: IsLocked(s, p) ==> s.vols[p].uuid == t.vols[p].uuid)
    && (forall p, k :: HasKey(s, p, k) <==> HasKey(t, p, k))
  }

  lemma RemovalKeeps(l: Layout, s: State, p: Part)
    requires Inv(l, s) && HasBlank(s, p) && SomeKey(s, p)
    ensures var next := WithSlots(s, p, s.vols[p].slots - multiset{Blank});
      Inv(l, next) && SameKeys(s, next) && SomeKey(next, p)
  {
    hide Parts;
    var next := WithSlots(s, p, s.vols[p].slots - multiset{Blank});
    var k :| HasKey(s, p, k);
    assert HasKey(next, p, k);
    assert SameKeys(s, next);
    assert forall q :: q != p ==> (HasBlank(next, q) <==> HasBlank(s, q));
    assert RootLast(l, next);
  }

  /** The removal loop ends without a blank slot, and keeps every key. */
  lemma {:induction false} RemovalsKeep(l: Layout, s: State, p: Part)
    requires Inv(l, s) && (IsLocked(s, p) ==> SomeKey(s, p))
    ensures AllInv(l, Removals(s, p))
    ensures SameKeys(s, End(s, Removals(s, p))) && Inv(l, End(s, Removals(s, p)))
    ensures forall q :: HasBlank(End(s, Removals(s, p)), q) <==> q != p && HasBlank(s, q)
    ensures Removals(s, p).done <==> IsLocked(s, p)
    decreases if IsLocked(s, p) then s.vols[p].slots[Blank] else 0
  {
    hide Inv, SomeKey;
    if HasBlank(s, p) {
      var next := WithSlots(s, p, s.vols[p].slots - multiset{Blank});
      RemovalKeeps(l, s, p);
      RemovalsKeep(l, next, p);
      EndOfCons(s, next, Removals(next, p));
    }
  }

  lemma EndOfCons(s: State, next: State, rest: Trace)
    ensures End(s, Trace([next] + rest.states, rest.done)) == End(next, rest)
  {
  }

  lemma ExecKeeps(l: Layout, c: Command, s: State)
    requires Inv(l, s) && Allowed(l, c, s)
    ensures AllInv(l, Exec(l, c, s)) && Inv(l, End(s, Exec(l, c, s)))
  {
    hide Inv, Removals, Effect;
    if c.RemoveBlanks? {
      RemovalsKeep(l, s, c.part);
    } else if Effect(l, c, s).Some? {
      EffectKeeps(l, c, s);
    }
  }

  /** Each command is allowed when its turn comes. */
  ghost predicate Cleared(l: Layout, program: seq<Command>, s: State)
    decreases |program|
  {
    program == [] || (
      && Allowed(l, program[0], s)
      && (Exec(l, program[0], s).done ==> Cleared(l, program[1..], End(s, Exec(l, program[0], s)))))
  }

  lemma {:induction false} RunKeeps(l: Layout, program: seq<Command>, s: State)
    requires Inv(l, s) && Cleared(l, program, s)
    ensures AllInv(l, Run(l, program, s)) && Inv(l, End(s, Run(l, program, s)))
    decreases |program|
  {
    hide Inv, Allowed, Exec;
    if program != [] {
      ExecKeeps(l, program[0], s);
      if Exec(l, program[0], s).done {
        RunKeeps(l, program[1..], End(s, Exec(l, program[0], s)));
      }
    }
  }

  lemma Cons(l: Layout, c: Command, rest: seq<Command>, s: State)
    ensures Cleared(l, [c] + rest, s) <==>
      Allowed(l, c, s) && (Exec(l, c, s).done ==> Cleared(l, rest, End(s, Exec(l, c, s))))
    ensures Run(l, [c] + rest, s) ==
      if !Exec(l, c, s).done then Exec(l, c, s)
      else Chain(Exec(l, c, s), Run(l, rest, End(s, Exec(l, c, s))))
  {
    hide Allowed, Exec;
    assert ([c] + rest)[1..] == rest;
  }

  function Chain(a: Trace, b: Trace): Trace {
    Trace(a.states + b.states, b.done)
  }

  lemma EndOfChain(s: State, a: Trace, b: Trace)
    ensures End(s, Chain(a, b)) == End(End(s, a), b)
  {
  }

  lemma {:induction false} Concat(l: Layout, a: seq<Command>, b: seq<Command>, s: State)
    ensures Cleared(l, a + b, s) <==>
      Cleared(l, a, s) && (Run(l, a, s).done ==> Cleared(l, b, End(s, Run(l, a, s))))
    ensures Run(l, a + b, s) ==
      if !Run(l, a, s).done then Run(l, a, s) else Chain(Run(l, a, s), Run(l, b, End(s, Run(l, a, s))))
    decreases |a|
  {
    hide Allowed, Exec;
    if a == [] {
      assert a + b == b;
    } else {
      var x := Exec(l, a[0], s);
      assert a == [a[0]] + a[1..] && a + b == [a[0]] + (a[1..] + b);
      Cons(l, a[0], a[1..], s);
      Cons(l, a[0], a[1..] + b, s);
      if x.done {
        Concat(l, a[1..], b, End(s, x));
        EndOfChain(s, x, Run(l, a[1..], End(s, x)));
      }
    }
  }

  lemma Nothing(l: Layout, s: State)
    ensures Cleared(l, [], s) && Run(l, [], s) == Trace([], true) && SameKeys(s, s)
  {
  }

  lemma DieRuns(l: Layout, s: State)
    ensures Cleared(l, [Die], s) && Run(l, [Die], s) == Trace([], false)
  {
  }
}
