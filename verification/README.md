# Verified models of the tools

Dafny models of five pieces of this repository, with proofs of what their code decides. Line references
are to the repository's own files. `dafny verify dfyconfig.toml` checks the whole project. Nothing was
executed: the proofs are about the models.

## PivotZone

A mount table (`MountTable`) maps places to file systems. A place is the list of directory steps from the
root, with a mark for every mount that is crossed, so that stacked and hidden mounts have places of their
own and a moved mount takes along everything that is mounted below it. On it are defined `mount`,
`umount` (refused while something is mounted below), `mount --move` and `pivot_root`. `ZoneProtocol` gives
the steps of `enter` and `exit` in the code's order, including those after which an exception leaves
things as they are; `ZoneBuild` does so for `build` and `destroy`. `ZoneCoordinator.Coordinator` is the
object of the source: its methods change its fields step by step and are proved against these
specifications; `Services` is the bookkeeping of stopped and restarted services.

Two results differ from what one expects. `enter` succeeds exactly when every real mount is covered by a
mounted `_PFS` (the code has a TODO for the others). And `exit` reads `system_service_statuses` even when
no services are configured, which raises after the mounts are done; it restores the system exactly when
the statuses were set. `ZoneExamples` shows both on small systems.

## NVRAM tool

Unbounded integers are polynomials over GF(2) (`Gf2`). `Crc8` has the loops of `crc8` and shows them to
compute a polynomial remainder; `CrcDetection` has what follows for error detection. `NvData` has the
version choice, the scan for the record in force, the update in place of the image, and what a second run
finds.

## AutoTpmEncrypt

`Luks` is a machine of partitions with key slots, key backups, sealed objects in the TPM, the files of
the root file system that matter, the installed boot image and the running one. The runs of the tool are
lists of commands; a run can fail at any command or be stopped after any step. `LuksSafety`, `LuksRuns`
and `LuksTheorems` show that nothing is ever lost and when the machine boots by itself; `LuksMachine` has
the tool's loops on the machine, with a log of all states passed. `LuksOutcomes` says exactly when
encryption and decryption come to their end, and what they leave. The partition set is fixed over a life,
as the tool takes it to be. The code does not ask for a reboot between the update hook and the manual set
up; `ManualTooEarly` shows what that costs, on a machine given in `LuksExamples`, and `ManualBootsExactly`
when manual set up is right.

`Text` and `Fstab` are the rewriting of `/etc/fstab` on the text of the file, which a later restore gives
back exactly when its lines had no marks of the tool and did not end with an empty one; `FstabMounts` says
what an updated file mounts. `Hooks` and `HooksOrder` are the rewriting of
the mkinitcpio hooks, `EspManifest` the manifest of the EFI system partition. `MountLists` covers
`setup_chroot` and `teardown_chroot`.

## LizardShell

`Screen` says what every character and escape sequence does to both buffers, cursor and colours;
`ScreenWorker.Terminal` does it in place, from the characters as they come in. `ScreenSheet` shows the
screen to be a view of endless sheets, for every sequence, and `ScreenLaws` relates the moving sequences
to each other and gives the colours. The terminal has a fixed size and its input is ASCII. Row 0 is
the one way to put the cursor outside: `[0d`, or `[0;cH` with a column of the screen.

## Package dependencies

`Packages` has the fixpoint loop of `get_dependent_packages`, which adds to the set that it is scanning,
and the union of file lists. A line that continues a `Required By` list is only looked at after a line
that already added its package, so that it never adds one; `ContinuationsMatterExactly` says for which
listings that loses nothing, and `SecondLineIsLost` gives one that loses a package.

## Model

| member | source | states |
|---|---|---|
| ZoneBuild.WholeLife | PivotZone/pivotzoneutils.py:354-679 | a zone built on a system where `_RUN_DIR` is new can be entered, left and destroyed: every mount step succeeds, leaving gives back the system that entering found, and destroying, which reads the mounts again, gives back the mount table from before `build` |
| ZoneTheorems.EnterSucceedsExactly | PivotZone/pivotzoneutils.py:492-587 | for every built mount tree, all mount steps of `enter` succeed exactly when every real mount other than the root is one of the mounted `_PFS` or below one; otherwise the last `umount` finds the old root busy |
| ZoneTheorems.EnteredMounts | PivotZone/pivotzoneutils.py:499-587 | after `enter` every old mount other than the root and its bind is at its new place, and nothing else is mounted anywhere |
| ZoneTheorems.RootDeviceIsFree | PivotZone/pivotzoneutils.py:581-587 | while in the zone the device of the real root is mounted nowhere if and only if it was mounted nowhere but at the root and at the bind in the zone |
| ZoneTheorems.EnteredRun | PivotZone/pivotzoneutils.py:574-575 | after `enter` the zone's own `/run` is what is mounted at `/run` |
| ZoneTheorems.EnteredSlot | PivotZone/pivotzoneutils.py:520-527 | after `enter` the file system of each mounted real `_PFS`, the twice moved `/run` included, is the one found at its directory in `_PFSHOLDER` |
| ZoneTheorems.EnteredSubtrees | PivotZone/pivotzoneutils.py:520-551 | whatever was mounted below the zone's root is at the same place below `/`, and whatever was below a real `_PFS` is at the same place below its slot |
| ZoneTheorems.ExitMountsGiveBack | PivotZone/pivotzoneutils.py:638-652 | the mount, moves and pivot of `exit` lead back to the table from before the pivot, whatever order `os.listdir(_PFSHOLDER)` returns |
| ZoneTheorems.ExitUndoesEnter | PivotZone/pivotzoneutils.py:624-679 | `exit` after `enter` gives back the mounts and directories exactly, the bind mount in the zone included |
| ZoneTheorems.ExitWithoutStatuses | PivotZone/pivotzoneutils.py:658-679 | when no services are configured the statuses are never set, `exit` raises after its mounts, the bind and the holder directory are not restored, and the next `enter` refuses |
| ZoneTheorems.ExitRestoresExactly | PivotZone/pivotzoneutils.py:624-679 | leaving restores the system if and only if the statuses were recorded |
| ZoneTheorems.ExitTwice | PivotZone/pivotzoneutils.py:628-629 | a second `exit` finds itself outside the zone and changes nothing |
| ZoneExamples.EnterFailsWithADisk | PivotZone/pivotzoneutils.py:581-587 | with the root, `/run` and a disk at `/mnt`, `build` succeeds and `enter` ends with the old root busy |
| ZoneExamples.EnterSucceedsByName | PivotZone/pivotzoneutils.py:12-527 | `enter` succeeds exactly when every real mount is the root, in the zone, or at or below a mounted `/dev`, `/proc`, `/sys`, `/run` or `/tmp` |
| ZoneExamples.SlotByName | PivotZone/pivotzoneutils.py:12-527 | and each of these five is then found under its name in `/run/PivotZone/pfsholder` |
| ZoneExamples.PlainSystemEnters | PivotZone/pivotzoneutils.py:12-587 | on any system with nothing mounted but its root and some of the five, the zone is built and entered, and each is found under its name in the holder |
| ZoneExamples.SmallSystemLives | PivotZone/pivotzoneutils.py:354-679 | with the root and `/run` alone, the zone is built, entered, left and destroyed, and the table is the first one again |
| ZoneExamples.ExitFailsOnTheSmallSystem | PivotZone/pivotzoneutils.py:658-679 | on the same system without services, `exit` raises and the next `enter` refuses |
| ZoneSwap.SwapIsMove | PivotZone/pivotzoneutils.py:544-574 | the four moves that swap `/run` have, on every mount below it, hidden ones included, the effect of one move of the real `/run` into its slot |
| ZoneLayout.PivotGivesLayout | PivotZone/pivotzoneutils.py:499 | `pivot_root` puts the zone's tree at `/` and the whole real tree below `_BACKINGROOT` |
| ZoneLayout.StashGivesLayout | PivotZone/pivotzoneutils.py:520-527 | moving one real `_PFS` to its slot changes the place of that subtree and of no other mount |
| ZoneLayout.RelocateBack | PivotZone/pivotzoneutils.py:643-648 | moving a subtree to a vacant place and back again gives the same mount table |
| ZoneTheorems.PivotOutUndoes | PivotZone/pivotzoneutils.py:651 | the second `pivot_root` is the inverse of the first |
| ZoneBuild.BuildIsBuilt | PivotZone/pivotzoneutils.py:354-384 | `build` leaves a zone that is mounted, bound and not entered, with the real mounts where they were |
| ZoneBuild.BuildMountsAll | PivotZone/pivotzoneutils.py:358-369 | in the zone every listed file system, but automount points and those hidden by a later one, is found at its path with its type |
| ZoneBuild.BuildMountsNothingElse | PivotZone/pivotzoneutils.py:354-384 | besides the zone's root and the bind nothing is mounted that is not listed, and no automount point is |
| ZoneBuild.BuildIsCovered | PivotZone/pivotzoneutils.py:358-384 | what `build` mounts does not break the condition under which `enter` succeeds |
| ZoneBuild.DestroyUndoesBuild | PivotZone/pivotzoneutils.py:387-397 | for every sorted list of mounts, with automount points and mounts stacked on one directory, `destroy` with the same list succeeds and gives the table back |
| ZoneBuild.DestroyReadsAgain | PivotZone/pivotzoneutils.py:387-397 | with any list that it can read from the mounts it finds, whatever the order of lines for one directory, `destroy` gives the table back |
| ZoneBuild.GrownListsTheSame | PivotZone/pivotzoneutils.py:14-175 | since everything in `_RUN_DIR` is excluded from the list, `build` does not change what is listed |
| ZoneExamples.WantedByName | PivotZone/pivotzoneutils.py:165-175 | listed is what is mounted at or below `/dev`, `/proc`, `/sys`, `/run` or `/tmp`, except below `/run/user` and `/run/PivotZone` |
| MountLists.SameMountsUnmountAlike | PivotZone/pivotzoneutils.py:392-395 | two sorted lists of the same mounts are unmounted with the same result, success or failure |
| MountLists.MountingNeverCovers | PivotZone/pivotzoneutils.py:358-369 | in sorted order no mount is put over a mount that came earlier and lies below it |
| MountLists.UnmountUndoesMount | PivotZone/pivotzoneutils.py:392-395 | in reverse order no `umount` meets a mount with mounts below it, and the table is restored |
| MountLists.TeardownUndoesSetup | AutoTpmEncrypt/auto_tpm_encrypt.py:557-567 | `teardown_chroot` after `setup_chroot` never fails and gives the table back |
| Services.RestartsWhatWasStopped | PivotZone/pivotzoneutils.py:660-675 | for all services, users and statuses, `exit` restarts each unit as often as `enter` stopped it |
| Services.StoppedExactly | PivotZone/pivotzoneutils.py:475-488 | a unit is stopped exactly when it is configured for its kind and was recorded as active |
| Services.ZoneRestartsOnlyStopped | PivotZone/pivotzoneutils.py:560-568 | what `enter` restarts inside the zone is among what it stopped |
| Services.ZoneRestartsExactly | PivotZone/pivotzoneutils.py:560-568 | inside the zone each unit of the system and of a user still logged in is restarted as often as the restartable services had it stopped, and none of any other user |
| Services.ZoneRestarts | PivotZone/pivotzoneutils.py:560-568 | a unit is restarted there exactly when it is restartable, was recorded as active and, for a user, that user is still logged in |
| ZoneCoordinator.StopsWhatRuns | PivotZone/pivotzoneutils.py:470-488 | from the units themselves: what is stopped is exactly what is configured for its kind and runs |
| ZoneCoordinator.RestartsWhatRan | PivotZone/pivotzoneutils.py:470-568 | from the units themselves: what is restarted in the zone is what is restartable, ran, and belongs to the system or to a user still logged in |
| Services.CollateKeepsConfigured | PivotZone/pivotzoneutils.py:420-425 | a unit is recorded as active exactly when it is active and configured for the kind asked for |
| ZoneCoordinator.Coordinator.Build | PivotZone/pivotzoneutils.py:354-384 | the loop of `build` ends with the table of the specification and records device and root |
| ZoneCoordinator.Coordinator.Destroy | PivotZone/pivotzoneutils.py:387-397 | the reverse loop of `destroy`: the error, if one is raised, and the mounts that it leaves in every case |
| ZoneCoordinator.Coordinator.Enter | PivotZone/pivotzoneutils.py:449-587 | the steps of `enter` on the object: new mounts, recorded statuses, and the stop and restart commands issued, or the exception and the state it leaves |
| ZoneCoordinator.Coordinator.StashMounts | PivotZone/pivotzoneutils.py:520-527 | the loop that stashes the real `_PFS` |
| ZoneCoordinator.Coordinator.SwapRuns | PivotZone/pivotzoneutils.py:544-575 | the swap of `/run` with the restarts in the middle of it |
| ZoneCoordinator.Coordinator.Exit | PivotZone/pivotzoneutils.py:624-679 | the steps of `exit` on the object, with its restarts |
| ZoneCoordinator.Coordinator.Visit | PivotZone/pivotzoneutils.py:449-679 | one visit with any configuration: the system is what it was and the units restarted by `exit` are those stopped by `enter`, or, when no statuses were ever recorded, `exit` raises and leaves the zone unbound with an empty holder |
| ZoneCoordinator.Commands | PivotZone/pivotzoneutils.py:481-488 | the loop over services and users issues the commands of the specification, in order |
| MountTable.RelocateKeepsValid | PivotZone/pivotzoneutils.py:527 | moving a subtree out of itself to a vacant place keeps every mount on a mounted parent |
| MountTable.SwungKeepsValid | PivotZone/pivotzoneutils.py:499 | `pivot_root` keeps every mount on a mounted parent |
| Crc8.ComputeCrc8 | nvdata_tool/nvdata_tool.py:33-41 | the loops compute the checksum; the unbounded register stays below 2^16, its low byte is zero at byte boundaries, and the result is a byte |
| Crc8.CrcIsRemainder | nvdata_tool/nvdata_tool.py:33-41 | for every byte string the checksum is the remainder of M(x) x^8 divided by x^8 + x^2 + x + 1 over GF(2) |
| Crc8.Fold | nvdata_tool/nvdata_tool.py:37-40 | one turn of the inner loop, with the constant 0x8380, multiplies by x modulo the generator |
| Gf2.RemainderIsUnique | nvdata_tool/nvdata_tool.py:33-41 | a remainder is determined by the polynomials, so the checksum has no other value |
| CrcDetection.SameCrcExactly | nvdata_tool/nvdata_tool.py:33-41 | two messages of any lengths have the same checksum if and only if the generator divides their difference |
| CrcDetection.TwoFlipsExactly | nvdata_tool/nvdata_tool.py:33-41 | flipping two bits goes unnoticed if and only if 127 divides their distance |
| CrcDetection.OrderIs127 | nvdata_tool/nvdata_tool.py:33-41 | a power of x is 1 modulo the generator exactly when its exponent is a multiple of 127 |
| CrcDetection.BurstIsDetected | nvdata_tool/nvdata_tool.py:33-41 | a change confined to eight consecutive bits always changes the checksum |
| CrcDetection.BurstExactly | nvdata_tool/nvdata_tool.py:33-41 | a change confined to nine consecutive bits goes unnoticed if and only if the flipped bits are those of the generator |
| CrcDetection.ParityIsKept | nvdata_tool/nvdata_tool.py:33-41 | checksum and message have the same parity of one bits |
| CrcDetection.OddChangeIsDetected | nvdata_tool/nvdata_tool.py:33-41 | an odd number of flipped bits always changes the checksum |
| CrcDetection.ClosedExactly | nvdata_tool/nvdata_tool.py:134-137 | appending a byte makes the checksum zero if and only if it is the checksum so far |
| CrcDetection.ErasedIsClosedExactly | nvdata_tool/nvdata_tool.py:106 | a record of 0xFF bytes has checksum zero if and only if its length is a multiple of 127, so an erased record of a format in use never looks valid |
| NvData.Scan | nvdata_tool/nvdata_tool.py:101-110 | the scan returns the last record before the first erased slot or the end of the area, and nothing exactly when the first slot is not in use |
| NvData.InForceIsUnique | nvdata_tool/nvdata_tool.py:104-110 | at most one slot is the record in force |
| NvData.RewriteChangesOnly | nvdata_tool/nvdata_tool.py:125-137 | only the flag bytes, the checksum and, in the second format, the reserved byte change; of the flag bytes only the requested bits; the flags are as requested and the checksum over the record is zero |
| NvData.RewriteIsIdleExactly | nvdata_tool/nvdata_tool.py:140-142 | a run leaves a record as it is if and only if flags, reserved byte and checksum are right already |
| NvData.RewrittenIsNotErased | nvdata_tool/nvdata_tool.py:106 | an updated record is never the erased pattern |
| NvData.DisableUndoesEnable | nvdata_tool/nvdata_tool.py:125-128 | enabling a clear flag and disabling it again gives the record back |
| NvData.Rewrite | nvdata_tool/nvdata_tool.py:125-137 | the stores into the image list change the record in force and nothing else; an index is out of range exactly when the record does not fit the image |
| NvData.Update | nvdata_tool/nvdata_tool.py:91-142 | a run that asks for changes ends with the updated image or with the exception that the code raises in that case |
| NvData.RecordSizeExactly | nvdata_tool/nvdata_tool.py:91-96 | bit 6 of the header byte means records of 16 bytes; without it bit 0 or bit 1 means 64; without any the header is invalid |
| NvData.UpdateChangesOneRecord | nvdata_tool/nvdata_tool.py:91-142 | by the bits of the header byte, an update changes one record of 16 or 64 bytes a whole number of records into the area: bit 0 of byte 4 and bit 1 of byte 8 as requested, the reserved byte of the longer format, and the last byte so that the checksum is zero; all else stays |
| NvData.RescanFindsTheSame | nvdata_tool/nvdata_tool.py:104-110 | after an update the header byte is the same and a scan finds the same slot |
| NvData.SecondRunIsIdle | nvdata_tool/nvdata_tool.py:140-142 | repeating an update finds nothing to do |
| LuksTheorems.NothingIsEverLost | AutoTpmEncrypt/auto_tpm_encrypt.py:737-930 | over a fixed set of partitions, after any runs in any order, each stopped after any command, every encrypted partition opens with the blank password or with a key whose backup was written before |
| LuksTheorems.LifeKeeps | AutoTpmEncrypt/auto_tpm_encrypt.py:697-1554 | the invariants behind it hold over every such life: backups before slots, root last, images that find root find its key |
| LuksTheorems.ProgramsAreCleared | AutoTpmEncrypt/auto_tpm_encrypt.py:697-1554 | each command of each run is given only where it is safe; in particular blank removal is only reached where a key remains |
| LuksTheorems.StoppedRunKeeps | AutoTpmEncrypt/auto_tpm_encrypt.py:737-1093 | stopping a run after any of its steps leaves the invariants intact |
| LuksTheorems.ProperLifeBoots | AutoTpmEncrypt/auto_tpm_encrypt.py:1499-1758 | after any completed runs in which manual set up follows the reboot, every partition opens at the next boot by the blank password or the sealed key of the installed image |
| LuksTheorems.ManualBootsExactly | AutoTpmEncrypt/auto_tpm_encrypt.py:1499-1554 | a completed manual set up leaves the machine booting by itself if and only if the running system is the installed image |
| LuksTheorems.ManualTooEarly | AutoTpmEncrypt/auto_tpm_encrypt.py:1551-1554 | update hook and manual set up, both completed without a reboot in between, leave a machine that does not boot by itself |
| LuksOutcomes.DecryptionLeaves | AutoTpmEncrypt/auto_tpm_encrypt.py:938-1093 | decryption comes to its end exactly when no other key is found and the sealed object is there, and leaves every partition of the system plain, no script, hook or sealed object, and everything else as it was |
| LuksOutcomes.EncryptionLeaves | AutoTpmEncrypt/auto_tpm_encrypt.py:737-919 | encryption comes to its end exactly when the partitions differ and the TPM address is free or the tool's own, and leaves on every partition the key and two blank passwords, the key backed up, on root and sealed, and an image that names every volume |
| LuksOutcomes.HookLeaves | AutoTpmEncrypt/auto_tpm_encrypt.py:1499-1758 | an update hook leaves one more blank password on every partition, the key file sealed to the running system, and a new image |
| LuksOutcomes.AddBlankLeaves | AutoTpmEncrypt/auto_tpm_encrypt.py:1768-1792 | a blank password is added exactly where the key opens the partition |
| LuksExamples.ManualTooEarlyHappens | AutoTpmEncrypt/auto_tpm_encrypt.py:1551-1554 | on a sealed machine that boots, both runs do complete, and it does not boot by itself any more |
| LuksTheorems.ManualSealsFirst | AutoTpmEncrypt/auto_tpm_encrypt.py:1505-1554 | at no step has a blank password been removed before the new sealed object is there |
| LuksTheorems.ManualRun | AutoTpmEncrypt/auto_tpm_encrypt.py:1499-1554 | a completed manual set up has sealed the key file to the running system, removed all blank passwords and kept all keys |
| LuksTheorems.HookRun | AutoTpmEncrypt/auto_tpm_encrypt.py:1535-1758 | a completed update hook leaves a bootable machine with a new image |
| LuksTheorems.DecryptPartsRun | AutoTpmEncrypt/auto_tpm_encrypt.py:983-1093 | decryption is safe because root, opened with the key, shows that every locked partition has it |
| LuksRuns.EncryptPartsRun | AutoTpmEncrypt/auto_tpm_encrypt.py:786-919 | encryption is safe and ends bootable because root comes last |
| LuksRuns.AutoSetupRuns | AutoTpmEncrypt/auto_tpm_encrypt.py:1499-1758 | set up without a user adds blanks before the image that needs them is installed |
| LuksRuns.RemoveAllRun | AutoTpmEncrypt/auto_tpm_encrypt.py:1551-1554 | removing the blanks of partitions that have keys leaves all keys |
| LuksSafety.RemovalsKeep | AutoTpmEncrypt/auto_tpm_encrypt.py:697-703 | `remove_blank_password` removes all blank slots, two as well as one, and no other slot |
| LuksSafety.EffectKeeps | AutoTpmEncrypt/auto_tpm_encrypt.py:697-1792 | every single command keeps the invariants where it is allowed |
| LuksMachine.Machine.RemoveBlankPassword | AutoTpmEncrypt/auto_tpm_encrypt.py:697-703 | the loop until the return code says that the password is not found |
| LuksMachine.Machine.Encrypt | AutoTpmEncrypt/auto_tpm_encrypt.py:737-919 | the loop of `encrypt` passes exactly the states of its list of commands, up to the one that fails |
| LuksMachine.Machine.Decrypt | AutoTpmEncrypt/auto_tpm_encrypt.py:938-1093 | the same for `decrypt` |
| LuksMachine.Machine.Setup | AutoTpmEncrypt/auto_tpm_encrypt.py:1471-1758 | the same for `setup_auto_tpm_decrypt`, by hook or by hand |
| LuksMachine.Machine.EncryptOrDecrypt | AutoTpmEncrypt/auto_tpm_encrypt.py:1244-1326 | the menu entry: what root is decides, and any partition in use or of the other kind stops it |
| LuksMachine.Machine.SetupRunningSystem | AutoTpmEncrypt/auto_tpm_encrypt.py:1354-1366 | set up of the running system is refused without the hook file |
| LuksMachine.Machine.AddBlankPassword | AutoTpmEncrypt/auto_tpm_encrypt.py:1768-1792 | a blank password is added where the given key opens the partition |
| Fstab.RestoreUndoesUpdatesExactly | AutoTpmEncrypt/auto_tpm_encrypt.py:1050-1064 | for every file and any updates of any choice, one restore prints the original lines if and only if none of them looked like one of the tool's own and, once an update touched the file, the last of several lines was not empty |
| Fstab.RestoreGivesTheFileBackExactly | AutoTpmEncrypt/auto_tpm_encrypt.py:1050-1064 | for every file, it comes back letter by letter if and only if, besides, it was written as the tool writes files: lines stripped, with a newline at the end |
| Fstab.UpdateIsIdempotent | AutoTpmEncrypt/auto_tpm_encrypt.py:1694-1728 | for every file a second update with the same choices changes nothing |
| Fstab.TrailingBlankIsLost | AutoTpmEncrypt/auto_tpm_encrypt.py:1670-1697 | an empty last line is lost once an update with a home or var partition has touched the file |
| Fstab.EmptyFileIsNotRestored | AutoTpmEncrypt/auto_tpm_encrypt.py:1062 | after any updates or none, an empty file comes back as a newline |
| Fstab.UpdateKeepsRestored | AutoTpmEncrypt/auto_tpm_encrypt.py:1706-1720 | after an update of any lines a restore gives what it gives when only the tool's own lines are taken out, whichever update it was |
| Fstab.UpdateFstab | AutoTpmEncrypt/auto_tpm_encrypt.py:1694-1728 | the loop that builds the working copy, and the write only when it differs |
| FstabMounts.UpdatedFileMounts | AutoTpmEncrypt/auto_tpm_encrypt.py:1670-1728 | for every file that is touched, by the words of its lines: `/home` and `/var` are mounted from their mapper devices by one marked line each exactly when the partition is there, no other line is marked, no line names an encrypted volume, and the other lines are there in their order, those that did commented out |
| Fstab.RestoreFstab | AutoTpmEncrypt/auto_tpm_encrypt.py:1050-1064 | the loop that drops and uncomments lines |
| Text.ReadUndoesPrint | AutoTpmEncrypt/auto_tpm_encrypt.py:1061-1063 | lines that are stripped and whole are read back as they were written |
| Text.StripExactly | AutoTpmEncrypt/auto_tpm_encrypt.py:1695 | stripping takes the spaces at both ends and nothing else |
| Text.LinesMakeText | AutoTpmEncrypt/auto_tpm_encrypt.py:1695 | the lines of a text make up the text, but for a newline at its end |
| Hooks.Rewrite | AutoTpmEncrypt/auto_tpm_encrypt.py:1166-1183 | the rewriting of the hooks list; the index of a missing hook is never asked for, whatever the list |
| Hooks.RewriteCounts | AutoTpmEncrypt/auto_tpm_encrypt.py:1166-1183 | for every list each conflicting hook goes once, each missing required hook comes once, and all others occur as often as before |
| Hooks.RewriteKeepsOrder | AutoTpmEncrypt/auto_tpm_encrypt.py:1166-1183 | hooks that neither go nor come keep their order |
| Hooks.AutoComesBeforeEncryption | AutoTpmEncrypt/auto_tpm_encrypt.py:1182-1183 | `auto_tpm_encrypt`, when new, is directly before the encryption hook |
| HooksOrder.NewHooksAreInPlace | AutoTpmEncrypt/auto_tpm_encrypt.py:1170-1183 | by their names: a missing hook comes directly after its forerunner in the chain, a new `base` first, and the tool's hook directly before the encryption hook |
| HooksOrder.HooksByName | AutoTpmEncrypt/auto_tpm_encrypt.py:1159-1161 | which hooks conflict and which are required, for both kinds of boot image |
| Hooks.RewriteIsIdempotentExactly | AutoTpmEncrypt/auto_tpm_encrypt.py:1167-1169 | a second rewriting changes nothing if and only if no conflicting hook was listed twice |
| EspManifest.Capture | AutoTpmEncrypt/auto_tpm_encrypt.py:456-468 | the walk records exactly what is below the directory, in any order of the entries |
| EspManifest.SameManifestExactly | AutoTpmEncrypt/auto_tpm_encrypt.py:456-468 | with a collision-free hash and separator-free names, two trees of any shape have the same manifest if and only if they are equal |
| EspManifest.JoinIsInjective | AutoTpmEncrypt/auto_tpm_encrypt.py:463-467 | separator-free names can be told from the joined path |
| EspManifest.CheckTellsExactly | AutoTpmEncrypt/auto_tpm_encrypt.py:498-502 | after a recording, checking says whether the partition is the same, if the clock did not run backwards |
| EspManifest.RecordedCountsExactly | AutoTpmEncrypt/auto_tpm_encrypt.py:480-496 | a recording counts as the latest if and only if it did already or no record has a later time |
| ScreenSheet.ScreenIsAWindow | AutoTpmEncrypt/LizardShell.py:171-403 | from a blank screen, for every run of characters and escape sequences that does not end the worker: both buffers, cursor and colours are a view of endless sheets on which cells are written and erased where they are and only the view moves |
| ScreenSheet.StepShows | AutoTpmEncrypt/LizardShell.py:171-403 | the same for one event from any state |
| ScreenSheet.EraseInRow | AutoTpmEncrypt/LizardShell.py:215-236 | cell by cell, what `K`, `0K`, `1K` and `X` blank and what they leave |
| ScreenSheet.EraseRows | AutoTpmEncrypt/LizardShell.py:239-246 | cell by cell, what `J`, `0J` and `2J` blank and what they leave |
| ScreenSheet.SimpleIgnoresHeight | AutoTpmEncrypt/LizardShell.py:356-403 | what characters and styles write does not depend on the height of the terminal |
| ScreenLaws.PlacesExactly | AutoTpmEncrypt/LizardShell.py:186-202 | `d`, `G` and `H` lead to the row and column they name, counted from 1, and change nothing else |
| ScreenLaws.UpAndDown | AutoTpmEncrypt/LizardShell.py:262-275 | `A` and `B` by n lead to the rows n above and below, or to the edge |
| ScreenLaws.RightGoesTo | AutoTpmEncrypt/LizardShell.py:205-207 | `C` by n leads to the column n to the right, or past the edge to what a newline does |
| ScreenLaws.LeftGoesTo | AutoTpmEncrypt/LizardShell.py:286-291 | `D` by n leads to the column n to the left, or to the first one |
| ScreenLaws.DownAndUp | AutoTpmEncrypt/LizardShell.py:262-275 | down and up again is where it was |
| ScreenLaws.RightAndLeft | AutoTpmEncrypt/LizardShell.py:205-291 | right and left again is where it was |
| ScreenLaws.MissingIsOne | AutoTpmEncrypt/LizardShell.py:186-291 | without a number a sequence does what it does with 1 |
| ScreenLaws.ListIsRead | AutoTpmEncrypt/LizardShell.py:190-197 | numbers joined by semicolons are read back |
| ScreenLaws.StylesExactly | AutoTpmEncrypt/LizardShell.py:323-340 | 0 gives the default colours, 1 the last colour of each kind that follows, any other number nothing |
| Screen.RunIsSafe | AutoTpmEncrypt/LizardShell.py:171-403 | over every run without malformed parameters both buffers keep the size of the terminal, and without row 0 the cursor stays inside |
| Screen.StepIsSafe | AutoTpmEncrypt/LizardShell.py:171-338 | the worker dies exactly of parameters that `int` or the unpacking rejects, and both buffers keep their size otherwise |
| Screen.CursorStaysInsideExactly | AutoTpmEncrypt/LizardShell.py:190-202 | a cursor inside the screen leaves it if and only if it is sent to row 0 in a column of the screen |
| Screen.AlternateScreenReturns | AutoTpmEncrypt/LizardShell.py:302-316 | whatever is shown in the alternate buffer, the main one is back cell by cell when it is left |
| Screen.StepLeavesAlt | AutoTpmEncrypt/LizardShell.py:302-316 | only the toggles touch the buffer that is not shown |
| ScreenWorker.ReadEvent | AutoTpmEncrypt/LizardShell.py:171-183 | reading one character at a time until an escape sequence is whole |
| ScreenWorker.ParameterCharacters | AutoTpmEncrypt/LizardShell.py:179 | which characters do not end a sequence |
| ScreenWorker.EventsAreRead | AutoTpmEncrypt/LizardShell.py:171-183 | events are read one after the other as they come in, whatever they are |
| ScreenWorker.ToggleIsRead | AutoTpmEncrypt/LizardShell.py:171-183 | the seven characters after an escape that switch to the alternate buffer are read as that one sequence |
| ScreenWorker.Terminal.Turn | AutoTpmEncrypt/LizardShell.py:356-403 | one turn of the worker changes buffers, cursor and colours as specified, or ends it |
| ScreenWorker.Terminal.Erase | AutoTpmEncrypt/LizardShell.py:214-259 | the erasing and scrolling sequences on the grid |
| ScreenWorker.Terminal.Move | AutoTpmEncrypt/LizardShell.py:185-291 | the moving sequences, with the first of the two branches for `C` |
| ScreenWorker.Terminal.Others | AutoTpmEncrypt/LizardShell.py:293-345 | scroll region, buffer toggles and styles |
| ScreenWorker.Terminal.Work | AutoTpmEncrypt/LizardShell.py:356-403 | the worker on a whole input |
| Packages.DependentPackages | PivotZone/pacman_helper.py:9-28 | the fixpoint loop ends, with exactly the packages that can be reached from the given one, although the set grows while a pass looks at it |
| Packages.RecordNamesUsers | PivotZone/pacman_helper.py:9-28 | a package is needed by those that its own record names as requiring it, and by nothing else but through them |
| Packages.Pass | PivotZone/pacman_helper.py:16-27 | one pass finds only needed packages, and all that the set at its start leads to |
| Packages.OrderDoesNotMatter | PivotZone/pacman_helper.py:9-28 | the records may be listed in any order without changing what is needed |
| Packages.ContinuationsMatterExactly | PivotZone/pacman_helper.py:18-23 | lines that continue a list never add a package; the results are complete for every package if and only if the first lines already lead from each name on such a line to the package it is listed for |
| Packages.ContinuationsMatterFor | PivotZone/pacman_helper.py:18-23 | for one package, the result is complete if and only if no continuation line leads out of it |
| Packages.SecondLineIsLost | PivotZone/pacman_helper.py:18-23 | a listing of four lines for which a package is lost |
| Packages.FilesFrom | PivotZone/pacman_helper.py:38-45 | the files are exactly those of the packages needed |
| Packages.OwnedExactly | PivotZone/pacman_helper.py:32-35 | a file is a package's exactly when a line of its listing is the package's name, a space and the file |

## Left out

- ZoneTheorems.EnterSucceedsExactly: the `umount` of the old root is modelled as one attempt that mounts alone can keep busy; processes that hold files open, the signals sent to them and the retries are left out.
- ZoneTheorems.EnteredRun: mount propagation (`--make-rprivate`, `--make-rshared`) is left out; all mounts are taken to be private, as the code makes them before it pivots.
- ZoneTheorems.ExitUndoesEnter: the file system type and device that `exit` reads from `_ROOTDEV` are parameters that name the old root; mount options are not part of the table.
- ZoneBuild.BuildIsBuilt: directories are modelled only where their absence or presence decides a step (`_PFSHOLDER`, its slots, the `/run` holder); copying into the zone, `zramctl`, `mkfs` and the contents of `_RAMDEV` are left out, and so is the order in which `__copy_dirs` makes mount points. A listed mount whose directory another mount covers, or is missing for another reason, makes `__copy_dirs` raise and `build` end there (`pivotzoneutils.py:198-222`, `358-361`); the model takes all directories of the listed mounts to be visible.
- ZoneBuild.DestroyReadsAgain: the sorting is Python's; the model takes any sorted list that has every wanted mount of the table exactly once. Mount options are any function of the place, the same at both readings, and the device shown for a mount is left out, as the code passes `none`. Mount points on the list are plain paths.
- ZoneBuild.WholeLife: systems where `/run` is not mounted, or is an automount point, and paths that `/proc/mounts` would have to escape are left out; `build` needs a mounted `/run` for the zone to have one.
- ZoneCoordinator.Coordinator.Enter: the branch that first leaves a chroot when `enter` is called from inside the zone, `enter_hook`, kernel modules, and closing a LUKS device afterwards are left out.
- ZoneCoordinator.Coordinator.Exit: the answers of the service manager are parameters, and its commands are recorded, not modelled.
- NvData.Update: argument parsing, the search for the area in the firmware log and `flashrom` are left out; `--dump` and `--status` only print.
- LuksTheorems.NothingIsEverLost: the contents of partitions, file system checks and resizing, header backups, AC power and wakelocks are left out; re-encryption and decryption of a partition are single steps, because `cryptsetup` can resume them; the backup files are taken to survive.
- LuksTheorems.ProperLifeBoots: the measured boot is one number per image, and a sealed key opens under the image that ran when it was sealed; PCR banks, firmware changes and secure boot signing are left out.
- LuksMachine.Machine.Setup: only the systemd branch without `crypttab`; kernel arguments and the assembly of the EFI binary are left out, and a free TPM address is a parameter.
- LuksMachine.Machine.EncryptOrDecrypt: the choice of the ESP, the regular expression for Steam Deck partitions and the wizard are left out.
- Fstab.UpdateFstab: newlines are those of Python's text mode, after its translation; of the characters that Python strips, the ASCII ones are.
- Hooks.Rewrite: the regular expression that finds the line and the other lines of the file, which are copied, are left out.
- EspManifest.Capture: symbolic links do not occur on the FAT file system of an ESP; one path of the manifest file is used for writing and checking.
- EspManifest.CheckTellsExactly: the JSON file is a map from recording times to manifests.
- ScreenSheet.ScreenIsAWindow: the cache of the real cursor and colours, the drawing on the real terminal, the keyboard, resizing and input that is not ASCII are left out.
- Packages.DependentPackages: lines are given as the regular expressions tell them apart, and every record starts with its name, as the package manager prints it; without that the code would use an unset variable.
- `PivotZone/pivotzoned.c`, `PivotZone/mypivotzone.py`, the Windows and GPU scripts, the session helper and the virtual machine definition: plumbing between programs.
