/**
 Entering and leaving a pivotzone, as the mount commands that `enter` and `exit` issue, in their order.

 Every step maps the system to `Done(system)` or, where the Python raises, to `Raised(system, error)`
 with the system as the exception leaves it.
 */
module ZoneProtocol {
  import opened Core
  import opened MountTable

  const RUN_DIR: Path := ["run", "PivotZone"]
  const ZONEROOT: Path := RUN_DIR + ["zoneroot"]
  const BACKINGROOT: Path := RUN_DIR + ["backingroot"]
  const PFSHOLDER: Path := RUN_DIR + ["pfsholder"]
  const ZRUNHOLDER: Name := "PivotZone_zone_run_holder"
  const PFS: seq<Name> := ["dev", "proc", "sys", "run", "tmp"]
  const SHARED_PFS: set<Name> := {"run"}

  /** A path below `/run`, while the zone's `/run` is parked at the swap directory. */
  function ViaSwap(p: Path): Path
    requires p != []
  {
    [ZRUNHOLDER] + p[1..]
  }

  /**
   `holder` is the set of directories in the zone's `_PFSHOLDER`, or `None` while that directory does
   not exist; `swapDir` tells whether the directory for the swap of `/run` exists in the zone's root.
   */
  datatype System = System(table: Table, holder: Option<set<Name>>, swapDir: bool)

  datatype Run = Done(s: System) | Raised(s: System, error: Error)

  function Then(r: Run, next: System -> Run): Run {
    if r.Done? then next(r.s) else r
  }

  function FromResult(s: System, r: Result<Table>): Run {
    match r
    case Ok(t) => Done(s.(table := t))
    case Err(e) => Raised(s, e)
  }

  function MoveStep(s: System, from: Path, to: Path): Run
    requires to != []
  {
    FromResult(s, Move(s.table, from, to))
  }

  // ---------------------------------------------------------------------------------------------
  // enter
  // ---------------------------------------------------------------------------------------------

  function MakeHolder(s: System): Run {
    if s.holder.Some? then Raised(s, AlreadyEntered) else Done(s.(holder := Some({})))
  }

  function DropBacking(s: System): Run {
    if IsMount(s.table, BACKINGROOT) then FromResult(s, Unmount(s.table, BACKINGROOT))
    else if IsMount(s.table, ZONEROOT + BACKINGROOT) then
      FromResult(s, Unmount(s.table, ZONEROOT + BACKINGROOT))
    else Done(s)
  }

  function PivotIn(s: System): Run {
    FromResult(s, PivotRoot(s.table, ZONEROOT, ZONEROOT + BACKINGROOT))
  }

  function StashOne(s: System, i: Name): Run {
    if !IsMount(s.table, BACKINGROOT + [i]) then Done(s)
    else if s.holder.None? then Raised(s, DirectoryMissing)
    else if i in s.holder.value then Raised(s, DirectoryExists)
    else
      var made := s.(holder := Some(s.holder.value + {i}));
      if i in SHARED_PFS then Done(made) else MoveStep(made, BACKINGROOT + [i], PFSHOLDER + [i])
  }

  function StashFrom(s: System, names: seq<Name>): Run
    decreases |names|
  {
    if names == [] then Done(s)
    else
      var r := StashOne(s, names[0]);
      if r.Done? then StashFrom(r.s, names[1..]) else r
  }

  function StashAll(s: System): Run {
    StashFrom(s, PFS)
  }

  /** The exit status of the first of the four moves is not looked at. */
  function ParkZoneRun(s: System): Run {
    if s.swapDir then Raised(s, DirectoryExists)
    else
      var made := s.(swapDir := true);
      var r := MoveStep(made, ["run"], [ZRUNHOLDER]);
      if r.Done? then r else Done(made)
  }

  function RealRunToRun(s: System): Run {
    MoveStep(s, ViaSwap(BACKINGROOT) + ["run"], ["run"])
  }

  function RealRunToHolder(s: System): Run {
    MoveStep(s, ["run"], ViaSwap(PFSHOLDER) + ["run"])
  }

  function UnparkZoneRun(s: System): Run {
    var r := MoveStep(s, [ZRUNHOLDER], ["run"]);
    if r.Raised? then r
    else if IsMount(r.s.table, [ZRUNHOLDER]) then Raised(r.s, Busy)
    else Done(r.s.(swapDir := false))
  }

  function SwapRun(s: System): Run {
    Then(Then(Then(ParkZoneRun(s), RealRunToRun), RealRunToHolder), UnparkZoneRun)
  }

  function DropRoot(s: System): Run {
    FromResult(s, Unmount(s.table, BACKINGROOT))
  }

  function EnterMounts(s: System): Run {
    Then(Then(Then(Then(Then(MakeHolder(s), DropBacking), PivotIn), StashAll), SwapRun), DropRoot)
  }

  // ---------------------------------------------------------------------------------------------
  // exit
  // ---------------------------------------------------------------------------------------------

  function UnstashOne(s: System, i: Name): Run {
    var r := MoveStep(s, PFSHOLDER + [i], BACKINGROOT + [i]);
    if r.Raised? then r
    else if r.s.holder.None? || i !in r.s.holder.value then Raised(r.s, DirectoryMissing)
    else Done(r.s.(holder := Some(r.s.holder.value - {i})))
  }

  function UnstashFrom(s: System, order: seq<Name>): Run
    decreases |order|
  {
    if order == [] then Done(s)
    else
      var r := UnstashOne(s, order[0]);
      if r.Done? then UnstashFrom(r.s, order[1..]) else r
  }

  function PivotOut(s: System): Run {
    FromResult(s, PivotRoot(s.table, BACKINGROOT, BACKINGROOT + ZONEROOT))
  }

  /** Mount the root device, give the real mounts back to it, and make it the root again. */
  function ExitMounts(s: System, rootFs: Fs, order: seq<Name>): Run {
    var mounted := s.(table := Attach(s.table, BACKINGROOT, rootFs));
    Then(UnstashFrom(mounted, order), PivotOut)
  }

  /** The last two steps of `exit`; the log line before them reads an attribute that only `enter` sets. */
  function ExitCleanup(s: System, statusesKnown: bool): Run {
    if !statusesKnown then Raised(s, AttributeMissing)
    else
      var bound := s.(table := Attach(s.table, ZONEROOT + BACKINGROOT, s.table[ROOT]));
      if bound.holder == Some({}) then Done(bound.(holder := None)) else Raised(bound, Busy)
  }

  function Exit(s: System, device: string, rootFs: Fs, order: seq<Name>, statusesKnown: bool): Run {
    if s.table[ROOT].device != device then Raised(s, NotInZone)
    else Then(ExitMounts(s, rootFs, order), (r: System) => ExitCleanup(r, statusesKnown))
  }
}
