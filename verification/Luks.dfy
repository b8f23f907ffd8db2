/**
 The machine that AutoTpmEncrypt works on, and the single commands it is changed by: LUKS key slots, key
 backups, the sealed object in the TPM, and the boot image.  A tool run is a list of commands that ends
 early when one fails, or when the power goes.
 */
module Luks {
  import opened Core

  type Part = nat

  /** The partitions of the operating system: root, and home and var where they are partitions of their own. */
  datatype Layout = Layout(root: Part, home: Option<Part>, varPart: Option<Part>)

  datatype Slot = Blank | Key(id: nat)

  datatype Volume = Plain | Locked(uuid: nat, slots: multiset<Slot>)

  /** An EFI image: which volumes it opens at boot, and the TPM address its unseal script asks for. */
  datatype Image = Image(build: nat, uuids: map<Part, nat>, address: nat)

  /** A key sealed to the system that ran at the time. */
  datatype Sealed = Sealed(key: nat, build: nat)

  /** `keyFile`, `script` and `hook` are files of the root file system; the next uuid and build are `clock`. */
  datatype State = State(
    vols: map<Part, Volume>,
    backups: set<nat>,
    tpm: map<nat, Sealed>,
    keyFile: Option<nat>,
    script: Option<nat>,
    hook: bool,
    installed: Option<Image>,
    running: Option<Image>,
    clock: nat)

  /** The measurement of a system that is not the encrypted one. */
  const RECOVERY: nat := 0

  function Maybe(p: Option<Part>): seq<Part> {
    if p.Some? then [p.value] else []
  }

  /** The partitions in the order of set up and decryption. */
  function Parts(l: Layout): seq<Part> {
    [l.root] + Maybe(l.home) + Maybe(l.varPart)
  }

  /** In the order of encryption root comes last. */
  function EncryptOrder(l: Layout): seq<Part> {
    Maybe(l.varPart) + Maybe(l.home) + [l.root]
  }

  predicate IsPlain(s: State, p: Part) {
    p in s.vols && s.vols[p].Plain?
  }

  predicate IsLocked(s: State, p: Part) {
    p in s.vols && s.vols[p].Locked?
  }

  predicate HasBlank(s: State, p: Part) {
    IsLocked(s, p) && Blank in s.vols[p].slots
  }

  predicate HasKey(s: State, p: Part, k: nat) {
    IsLocked(s, p) && Key(k) in s.vols[p].slots
  }

  function WithSlots(s: State, p: Part, slots: multiset<Slot>): State
    requires IsLocked(s, p)
  {
    s.(vols := s.vols[p := Locked(s.vols[p].uuid, slots)])
  }

  // ---------------------------------------------------------------------------------------------
  // Commands
  // ---------------------------------------------------------------------------------------------

  datatype Command =
    | Die
    | WriteBackup(key: nat)
    | CheckPlain(part: Part)
    | Reencrypt(part: Part)
    | AddKey(part: Part, key: nat)
    | CopyKey(key: nat)
    | Evict(address: nat, missingIsFine: bool)
    | Seal(address: nat)
    | AddBlank(part: Part, from: Option<nat>)
    | RemoveBlanks(part: Part)
    | WriteScript(address: nat)
    | WriteHook
    | InstallImage(address: nat)
    | OpenWith(part: Part, key: nat)
    | ConvertSlots(part: Part, key: nat)
    | DecryptPart(part: Part, key: nat)
    | RemoveScript
    | RemoveHook
    | Boot
    | BootRecovery

  /** What a command other than the removal loop does; none when it fails. */
  function Effect(l: Layout, c: Command, s: State): Option<State>
    requires !c.RemoveBlanks?
  {
    match c
    case Die => None
    case WriteBackup(k) => Some(s.(backups := s.backups + {k}))
    case CheckPlain(p) => if IsPlain(s, p) then Some(s) else None
    case Reencrypt(p) =>
      if IsPlain(s, p)
      then Some(s.(vols := s.vols[p := Locked(s.clock, multiset{Blank})], clock := s.clock + 1))
      else None
    case AddKey(p, k) =>
      if HasBlank(s, p) then Some(WithSlots(s, p, s.vols[p].slots + multiset{Key(k)})) else None
    case CopyKey(k) => Some(s.(keyFile := Some(k)))
    case Evict(a, missingIsFine) => if a in s.tpm || missingIsFine then Some(s.(tpm := s.tpm - {a})) else None
    case Seal(a) =>
      if s.keyFile.Some? && a !in s.tpm
      then Some(s.(tpm := s.tpm[a := Sealed(s.keyFile.value, Measured(s))]))
      else None
    case AddBlank(p, from) =>
      var k := if from.Some? then from else s.keyFile;
      if k.Some? && HasKey(s, p, k.value)
      then Some(WithSlots(s, p, s.vols[p].slots + multiset{Blank}))
      else None
    case WriteScript(a) => Some(s.(script := Some(a)))
    case WriteHook => Some(s.(hook := true))
    case InstallImage(a) =>
      if forall p :: p in Parts(l) ==> IsLocked(s, p)
      then Some(s.(installed := Some(Image(s.clock, Uuids(l, s), a)), clock := s.clock + 1))
      else None
    case OpenWith(p, k) => if HasKey(s, p, k) then Some(s) else None
    case ConvertSlots(p, k) =>
      if IsLocked(s, p) && |s.vols[p].slots| > 0 && forall x :: x in s.vols[p].slots ==> x == Key(k)
      then Some(s) else None
    case DecryptPart(p, k) => if HasKey(s, p, k) then Some(s.(vols := s.vols[p := Plain])) else None
    case RemoveScript => Some(s.(script := None))
    case RemoveHook => Some(s.(hook := false))
    case Boot =>
      if s.installed.Some? && FindsRoot(l, s, s.installed.value) then Some(s.(running := s.installed)) else None
    case BootRecovery => Some(s.(running := None))
  }

  function Measured(s: State): nat {
    if s.running.Some? then s.running.value.build else RECOVERY
  }

  function Uuids(l: Layout, s: State): map<Part, nat> {
    map p | p in Parts(l) && IsLocked(s, p) :: s.vols[p].uuid
  }

  /** The image names the root volume that is there. */
  predicate FindsRoot(l: Layout, s: State, i: Image) {
    IsLocked(s, l.root) && l.root in i.uuids && i.uuids[l.root] == s.vols[l.root].uuid
  }

  /** The states after each step of a run, and whether it came to its end. */
  datatype Trace = Trace(states: seq<State>, done: bool)

  function End(s: State, t: Trace): State {
    if t.states == [] then s else t.states[|t.states| - 1]
  }

  /** `luksRemoveKey` with the blank password until it is not found any more. */
  function Removals(s: State, p: Part): Trace
    decreases if IsLocked(s, p) then s.vols[p].slots[Blank] else 0
  {
    if !IsLocked(s, p) then Trace([], false)
    else if Blank !in s.vols[p].slots then Trace([], true)
    else
      var next := WithSlots(s, p, s.vols[p].slots - multiset{Blank});
      var rest := Removals(next, p);
      Trace([next] + rest.states, rest.done)
  }

  function Exec(l: Layout, c: Command, s: State): Trace {
    if c.RemoveBlanks? then Removals(s, c.part)
    else
      match Effect(l, c, s)
      case None => Trace([], false)
      case Some(next) => Trace([next], true)
  }

  function Run(l: Layout, program: seq<Command>, s: State): Trace
    decreases |program|
  {
    if program == [] then Trace([], true)
    else
      var first := Exec(l, program[0], s);
      if !first.done then first
      else
        var rest := Run(l, program[1..], End(s, first));
        Trace(first.states + rest.states, rest.done)
  }

  // ---------------------------------------------------------------------------------------------
  // Programs
  // ---------------------------------------------------------------------------------------------

  datatype Op =
    | Encrypt(key: nat, freeAddress: nat)
    | Decrypt(key: nat)
    | UpdateHook(freeAddress: nat)
    | ManualSetup(freeAddress: nat)
    | AddBlankTo(part: Part, key: nat)
    | BootInstalled
    | BootOther

  /** The checks of `encrypt_or_decrypt` that concern the partitions: none is in use, and all are alike. */
  predicate Accepted(l: Layout, s: State, locked: bool) {
    && s.running == None
    && l.home != Some(l.root) && l.varPart != Some(l.root)
    && forall p :: p in Parts(l) ==> if locked then IsLocked(s, p) else IsPlain(s, p)
  }

  /** `setup_auto_tpm_decrypt` up to and including the sealed object. */
  function SealSteps(script: Option<nat>, free: nat): seq<Command> {
    if script.Some? then [Evict(script.value, true), Seal(script.value)] else [Seal(free)]
  }

  function AddressOf(script: Option<nat>, free: nat): nat {
    if script.Some? then script.value else free
  }

  function AddBlanks(parts: seq<Part>): seq<Command>
    decreases |parts|
  {
    if parts == [] then [] else [AddBlank(parts[0], None)] + AddBlanks(parts[1..])
  }

  function RemoveAll(parts: seq<Part>): seq<Command>
    decreases |parts|
  {
    if parts == [] then [] else [RemoveBlanks(parts[0])] + RemoveAll(parts[1..])
  }

  /** Writing the script and the hook and installing the image. */
  function Finish(a: nat): seq<Command> {
    [WriteScript(a), WriteHook, InstallImage(a)]
  }

  /** `--setup_auto_tpm_decrypt`: from a chroot while encrypting, and from the update hook. */
  function AutoSetup(l: Layout, script: Option<nat>, free: nat): seq<Command> {
    SealSteps(script, free) + AddBlanks(Parts(l)) + Finish(AddressOf(script, free))
  }

  function Lock(p: Part, key: nat): seq<Command> {
    [CheckPlain(p), Reencrypt(p), AddKey(p, key)]
  }

  /** One turn of the loop of `encrypt`. */
  function LockSteps(l: Layout, p: Part, key: nat, script: Option<nat>, free: nat): seq<Command> {
    Lock(p, key) + (if p == l.root then [CopyKey(key)] + AutoSetup(l, script, free) else [])
  }

  function EncryptParts(l: Layout, parts: seq<Part>, key: nat, script: Option<nat>, free: nat): seq<Command>
    decreases |parts|
  {
    if parts == [] then []
    else LockSteps(l, parts[0], key, script, free) + EncryptParts(l, parts[1..], key, script, free)
  }

  function Strip(p: Part, key: nat): seq<Command> {
    [RemoveBlanks(p), ConvertSlots(p, key), DecryptPart(p, key)]
  }

  /** One turn of the loop of `decrypt`. */
  function StripSteps(l: Layout, p: Part, key: nat, script: Option<nat>): seq<Command> {
    Strip(p, key) + (if p == l.root then CleanUp(script) else [])
  }

  function DecryptParts(l: Layout, parts: seq<Part>, key: nat, script: Option<nat>): seq<Command>
    decreases |parts|
  {
    if parts == [] then [] else StripSteps(l, parts[0], key, script) + DecryptParts(l, parts[1..], key, script)
  }

  function CleanUp(script: Option<nat>): seq<Command> {
    (if script.Some? then [Evict(script.value, false)] else []) + [RemoveScript, RemoveHook]
  }

  function Program(l: Layout, op: Op, s: State): seq<Command> {
    match op
    case Encrypt(key, free) =>
      if Accepted(l, s, false)
      then [WriteBackup(key)] + EncryptParts(l, EncryptOrder(l), key, s.script, free)
      else [Die]
    case Decrypt(key) =>
      if Accepted(l, s, true)
      then [OpenWith(l.root, key)] + DecryptParts(l, Parts(l), key, s.script)
      else [Die]
    case UpdateHook(free) =>
      if s.running.Some? && s.hook then AutoSetup(l, s.script, free) else [Die]
    case ManualSetup(free) =>
      if s.running.Some? && s.hook then SealSteps(s.script, free) + RemoveAll(Parts(l)) else [Die]
    case AddBlankTo(p, key) => [AddBlank(p, Some(key))]
    case BootInstalled => [Boot]
    case BootOther => [BootRecovery]
  }

  /** A tool run that is stopped after `steps` steps, or ends before that. */
  datatype Event = Event(op: Op, steps: nat)

  function After(s: State, t: Trace, steps: nat): State {
    if steps == 0 || t.states == [] then s
    else if steps >= |t.states| then End(s, t)
    else t.states[steps - 1]
  }

  function Life(l: Layout, s: State, events: seq<Event>): State
    decreases |events|
  {
    if events == [] then s
    else
      var e := events[0];
      Life(l, After(s, Run(l, Program(l, e.op, s), s), e.steps), events[1..])
  }
}
