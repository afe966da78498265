# lovm, modelled in Dafny

lovm is a small command-line tool that manages one local virtual machine per
directory. The `clone` command makes a linked clone of a source machine, a
VMware `.vmx` descriptor or a VirtualBox `.vbox` file, optionally followed by
`:snapshot`. The clone is placed under `<pwd>/.lovm/<name>/`. Its path, source,
engine tag and mount table are remembered in the sidecar file `machine.lovm`.
The other commands act on that clone: `start`, `stop`, `restart`, `delete`,
`ip`, `ssh` and `mount`. Each command rereads the record, picks a backend by
the suffix of the recorded source, drives the native tool (`vmrun` or
`vboxmanage`), and writes the record back only when the command succeeded.

The model is functional. A backend call takes the record and a `Host` value
and returns a `Step`: the record afterwards, the error value, and the argv of
every native tool it ran, in order. The `Host` value holds everything the
program learns from outside:

- which descriptor files exist;
- the working directory, and whether `.lovm` can be made;
- what each tool invocation returns;
- the parsed descriptor, networking and lease files;
- the current time;
- the order in which ranging over the interface map visits its keys.

"No tool ran" is therefore `calls == []`. The record is shared by reference
between the command line and the backend in the program; here it is passed
in and returned.

Modules:

- `Core`: the machine record, errors, outcomes, source and path helpers.
- `Mac`: `net.ParseMAC` (colon form) and `HardwareAddr.String`.
- `Discovery`: VMware IP discovery. It reads the MAC addresses of the
  descriptor, lists the DHCP networks, finds the current lease of a MAC,
  searches the networks in order, and searches the interfaces in order.
- `DiscoveryExamples`: the discovery run on small hand-built inputs: a
  descriptor and a networking configuration that give the values the
  repository's tests expect (engine/vmware/vmware_test.go:30 and :43), and a
  made-up lease on network 8.
- `Environment`: the `Host` value and the clone reconciliation shared by every
  engine that clones.
- `VMware`, `VirtualBox` and `Unknown`: the three backends of the current
  engine package.
- `LegacyVMware`: the older VMware backend.
- `Engine`: `Identify`, and the `Engine` factory as a backend kind plus one
  dispatching function.
- `Ssh`: the flag heuristics, the split of `ssh` arguments, and the command
  built around the guest's address.
- `Cli`: `ParseArgs`, `ParseClone`, `ParseMounts` (as written and corrected),
  the handlers and `Main` of the first front end.
- `Commands`: `Main` of the second front end, which hands dispatch to an
  external library.

## Model

| member | source | states |
|---|---|---|
| Core.FromTool | engine/vmware/vmware.go:184-192 | a tool call succeeds exactly when the tool exited zero, and otherwise fails with that argv |
| Core.BeforeColon | engine/engine.go:17-19 | the base of a source is a colon-free prefix that stops at the first colon |
| Core.AfterColon | engine/vmware/vmware.go:104-108 | when the source holds a colon, it is the base, the colon and this remainder, in that order; without a colon it is empty |
| Core.ColonsAfterFirst | engine/vmware/vmware.go:105-107 | the remainder after the first colon holds every colon of the source but that one |
| Core.RoundTripTwoColons | engine/vmware/vmware.go:104-108 | a source with a second colon is not reproduced by splitting it and writing `base:snapshot` back, since the part after the second colon is dropped |
| Core.SourceRoundTrip | engine/vmware/vmware.go:104-108 | splitting a source and writing `base[:snapshot]` back reproduces it exactly when it has at most one colon and does not end in one |
| Core.QualifiedSourceSplits | engine/vmware/vmware.go:153-157 | splitting a recorded `base[:snapshot]` gives back the base and snapshot that were written |
| Core.BeforeColonPrefix | engine/engine.go:17-19 | for a colon-free base, `base:rest` splits into that base and that rest |
| Core.BaseName | engine/vmware/vmware.go:116 | the last path element has no slash, ends the path, and is preceded by a slash when shorter than the path |
| Core.BaseNameAfterSeparator | engine/vmware/vmware.go:116 | the last element of a directory ending in a slash (or empty), followed by a slash-free name, is that name |
| Core.JoinPath | engine/vmware/vmware.go:118 | joining drops an empty element and otherwise starts with the directory and ends with the element |
| Core.JoinPathBaseName | engine/vmware/vmware.go:118 | the last element of a join is the joined element, when it is non-empty and slash-free |
| Core.JoinPathInsertsSlash | engine/vmware/vmware.go:118 | joining onto a directory that does not end in a slash puts exactly one slash between the two |
| Core.WorkDir | engine/vmware/vmware.go:118 | the `.lovm` directory lies under the working directory and is named `.lovm` |
| Core.TargetPath | engine/vmware/vmware.go:115-118 | the clone target ends with the engine's extension and, for a working directory `pwd` that does not end in a slash and whose last element is `name`, is exactly `pwd/.lovm/name/name<ext>` |
| Core.TargetPathJoins | engine/vmware/vmware.go:118 | the three joins that build the target insert exactly one slash each under a working directory that does not end in a slash |
| Core.TargetPathBaseName | engine/vmware/vmware.go:116-118 | the file name of the target is the working directory's last element followed by the extension |
| Core.CountColonsSplit | engine/vmware/vmware.go:105-107 | the colons of a concatenation are the colons of its parts |
| Mac.ParseGroups | engine/vmware/vmware.go:414 | a parsed group list is non-empty and its text has three characters per octet, less one |
| Mac.ParseMac | engine/vmware/vmware.go:414 | a parsed address has 6, 8 or 20 octets |
| Mac.FormatMac | engine/vmware/vmware.go:515 | the printed address has three characters per octet, less one |
| Mac.MacRoundTrip | engine/vmware/vmware.go:414 | parsing the printed text of an address of valid length gives back the address |
| Mac.FormatMacInjective | engine/vmware/vmware.go:515 | two addresses print the same exactly when they are equal, so the lease lookup's string comparison compares addresses |
| Mac.ParseMacCanonical | engine/vmware/vmware.go:509-515 | the printed form of a parsed address is the input text lower-cased |
| Mac.Lower | engine/vmware/vmware.go:515 | lower-casing keeps the length and maps every character through ASCII lower-casing |
| Discovery.ReadMacs | engine/vmware/vmware.go:402-423 | an empty descriptor yields no interfaces, and every MAC kept has a valid hardware-address length; `ReadMacsKeys` and `ReadMacsLastWins` state which interfaces appear and which MAC each keeps |
| Discovery.ReadMacsKeys | engine/vmware/vmware.go:402-423 | an interface is in the map exactly when some descriptor line declares it with a MAC that parses |
| Discovery.ReadMacsLastWins | engine/vmware/vmware.go:413-420 | an interface maps to the MAC of its last well-formed declaration |
| Discovery.ParseInt | engine/vmware/vmware.go:453 | a parsed network number lies in the signed 64-bit range |
| Discovery.Decimal | engine/vmware/vmware.go:453 | the decimal text of a number is a non-empty run of digits |
| Discovery.ParseIntRoundTrip | engine/vmware/vmware.go:453 | any network number up to the 64-bit maximum, written in decimal, parses back to itself |
| Discovery.ListNetworks | engine/vmware/vmware.go:429-462 | at most one network per captured token, each number within the signed 64-bit range; `ListNetworksMembers` and `ListNetworksAllParse` state its members and their order |
| Discovery.ListNetworksMembers | engine/vmware/vmware.go:429-462 | a network is listed exactly when some captured token parses to its number; tokens that do not parse are skipped |
| Discovery.ListNetworksAllParse | engine/vmware/vmware.go:452-459 | when every token parses, the list is the tokens' values in file order |
| Discovery.Current | engine/vmware/vmware.go:509-532 | a lease current for a MAC parses to exactly that MAC, although the program compares printed forms; `FindLease` and `LookupLeased` rely on it, with the time strictly between the lease's start and end |
| Discovery.LeaseLookup | engine/vmware/vmware.go:486-545 | an unreadable lease table is an error other than `NotFound`; `LookupNotFound` and `LookupLeased` state when it is `NotFound` and what a returned address means |
| Discovery.FindLease | engine/vmware/vmware.go:468-546 | `NotFound` exactly when no lease is current for the MAC; otherwise the answer comes from the first current lease, and is its address or a parse error |
| Discovery.FirstFound | engine/vmware/vmware.go:559-575 | the search returns the first answer that is not `NotFound`, and it is `NotFound` exactly when every element answered `NotFound` |
| Discovery.LookupNotFound | engine/vmware/vmware.go:486-545 | a table lookup answers `NotFound` exactly when the table is readable and holds no current lease for the MAC |
| Discovery.LookupLeased | engine/vmware/vmware.go:532-541 | an address a lookup returns belongs to a current lease of the MAC on that network |
| Discovery.SearchLeases | engine/vmware/vmware.go:558-575 | searching the networks finds only addresses leased to the MAC, and ends in `NotFound` exactly when every table is readable and none leases the MAC |
| Discovery.SearchOrder | engine/vmware/vmware.go:559-575 | an answer of the network search other than `NotFound` comes from the first network whose lease lookup gives something other than `NotFound`, every earlier one having said `NotFound` |
| Discovery.DetectIP | engine/vmware/vmware.go:552-576 | a found address is currently leased to the MAC on a DHCP network; `NotFound` exactly when no DHCP network leases it; an unreadable networking file is an error other than `NotFound`; every other answer is that of the first network, in file order, whose lookup does not say `NotFound` |
| Discovery.IP | engine/vmware/vmware.go:338-357 | an unreadable descriptor is an error other than `NotFound`; a found address is leased to one of the guest's interfaces; `NotFound` exactly when none of them is leased; every other answer is that of the first interface, in the map's visiting order, whose discovery does not say `NotFound` |
| DiscoveryExamples.DescriptorInterfaces | engine/vmware/vmware_test.go:37-57 | a stand-in descriptor yields `ethernet0` with MAC 00:0c:29:f7:07:f2 |
| DiscoveryExamples.NetworkingStandIn | engine/vmware/vmware_test.go:24-35 | a stand-in networking configuration lists DHCP networks 1 and 8, in that order |
| DiscoveryExamples.CurrentLeaseFound | engine/vmware/vmware.go:515-532 | a made-up current lease of the guest's MAC on network 8 is the guest's address |
| DiscoveryExamples.ExpiredLeaseNotFound | engine/vmware/vmware.go:532 | the same lease after its end time gives `NotFound` |
| DiscoveryExamples.UnknownMacNotFound | engine/vmware/vmware.go:515-517 | a lease for another MAC gives `NotFound`, not an error |
| Environment.Reconcile | engine/vmware/vmware.go:75-97 | cloning starts exactly when no clone exists and some source is known; a different source over an existing clone is a conflict; the same or no source over an existing clone is a no-op |
| Environment.ReconciliationTable | engine/vmware/vmware.go:63-70 | the six rows of the documented reconciliation table, one postcondition each |
| VMware.Found | engine/vmware/vmware.go:163-174 | the descriptor path is non-empty and names an existing file; `Stop`, `Delete` and `Clone` state what a found or missing guest leads to, and `Engine.Found` that the two file-based engines agree on it |
| VMware.Clone | engine/vmware/vmware.go:74-160 | the mounts and engine tag are kept and at most one tool runs; when the reconciliation finishes (no source, an existing clone, a conflicting source) that is the outcome with no call; a failed `mkdir .lovm` or `getwd` fails with no call; otherwise exactly `vmrun clone <base> <pwd>/.lovm/<name>/<name>.vmx linked [-snapshot=<s>]` runs, a powered-on snapshot report (and only that) fails with the record unchanged, and in every other case the record points at the target, records `base[:snapshot]`, and the clone succeeds exactly when the tool did |
| VMware.Start | engine/vmware/vmware.go:179-193 | a failed clone is returned as it is; after a successful clone, `vmrun start <path> nogui` runs on the clone's path after the clone's calls, and start succeeds exactly when that tool succeeded |
| VMware.Stop | engine/vmware/vmware.go:197-217 | the record is untouched; a missing guest is a success with no call; otherwise success exactly when the tool succeeded or reported the guest not powered on |
| VMware.Restart | engine/vmware/vmware.go:221-229 | a failed stop is returned as it is; otherwise the result is the start's, after the stop's calls |
| VMware.StartFoundMachine | engine/vmware/vmware.go:179-194 | an existing clone with a recorded source is started directly: the only call is `vmrun start`, and its status is the outcome |
| VMware.StartWithoutSource | engine/vmware/vmware.go:75-78 | with no recorded source, start fails for lack of a clone source and runs nothing |
| VMware.RestartMissing | engine/vmware/vmware.go:197-231 | when no guest exists, stop is a silent success and restart is exactly start |
| VMware.Delete | engine/vmware/vmware.go:362-390 | only the path may change, and it is cleared exactly when stop and `vmrun deleteVM` both succeeded; a missing guest is a no-op success |
| VMware.Mount | engine/vmware/vmware.go:393-397 | mounting always fails as not implemented, with no call and no change |
| VMware.IP | engine/vmware/vmware.go:338-357 | an unreadable descriptor, including the one an empty path names, is an error other than `NotFound`; a found address is leased to one of the descriptor's interfaces; `NotFound` exactly when none is; every other answer is that of the first interface, in visiting order, whose discovery does not say `NotFound` |
| VMware.IPWithoutPath | engine/vmware/vmware.go:338-341 | with no clone path, reading the descriptor fails, so discovery fails with an error other than `NotFound` |
| VMware.PathStaysDescriptor | engine/vmware/vmware.go:118 | every lifecycle call keeps the path empty or naming a `.vmx` file |
| VMware.DeleteIdempotent | engine/vmware/vmware.go:362-366 | after a successful delete, deleting again runs nothing and succeeds |
| VMware.StopIdempotent | engine/vmware/vmware.go:207-211 | when the tool reports the guest not powered on, stop succeeds and a second stop gives the same result |
| VMware.RecloneFromRecord | engine/vmware/vmware.go:94-97 | after a clone and the loss of its descriptor, cloning from the record alone repeats the same `vmrun clone` call |
| VMware.CloneTwice | engine/vmware/vmware.go:84-91 | a second clone of the same source over the clone runs nothing, and is a no-op success exactly when the source has at most one, non-final, colon |
| VirtualBox.Found | engine/virtualbox/virtualbox.go:207-218 | the machine-file path is non-empty and names an existing file; `Stop`, `Delete` and `Clone` state what a found or missing guest leads to |
| VirtualBox.DetectSnapshot | engine/virtualbox/virtualbox.go:220-228 | the snapshot exists exactly when `vboxmanage snapshot <path> showvminfo lovm-clone` succeeds, any failure meaning absent; `CreateSnapshot` takes it only when absent and `CreateSnapshotOnce` shows it is not taken twice |
| VirtualBox.CreateSnapshot | engine/virtualbox/virtualbox.go:230-251 | the snapshot is looked for and taken only if absent; success exactly when it existed or was taken |
| VirtualBox.Clone | engine/virtualbox/virtualbox.go:28-117 | the mounts and engine tag are kept and at most three tools run; when the reconciliation finishes that is the outcome with no call; a failed `mkdir .lovm` or `getwd` fails with no call; otherwise, without a snapshot in the source, the engine's snapshot is looked for and taken if absent, and failing that the clone fails with the record unchanged; then `vboxmanage clonevm` runs last, the record points at the `.vbox` target and records `base[:snapshot]`, and the clone succeeds exactly when that tool did |
| VirtualBox.Start | engine/virtualbox/virtualbox.go:119-137 | a failed clone is returned as it is; after a successful clone, `vboxmanage startvm <path> --type headless` runs on the clone's path after the clone's calls, and start succeeds exactly when that tool succeeded |
| VirtualBox.Stop | engine/virtualbox/virtualbox.go:139-160 | the record is untouched; a missing guest is a success with no call; otherwise success exactly when the tool succeeded or reported the guest not running |
| VirtualBox.Restart | engine/virtualbox/virtualbox.go:162-170 | a failed stop is returned as it is; otherwise the result is the start's, after the stop's calls |
| VirtualBox.StartFoundMachine | engine/virtualbox/virtualbox.go:119-137 | an existing clone with a recorded source is started directly: the only call is `vboxmanage startvm`, and its status is the outcome |
| VirtualBox.StartWithoutSource | engine/virtualbox/virtualbox.go:28-31 | with no recorded source, start fails for lack of a clone source and runs nothing |
| VirtualBox.RestartMissing | engine/virtualbox/virtualbox.go:139-170 | when no guest exists, stop is a silent success and restart is exactly start |
| VirtualBox.Delete | engine/virtualbox/virtualbox.go:172-197 | only the path may change, and it is cleared exactly when stop and `vboxmanage unregistervm --delete` both succeeded |
| VirtualBox.Mount | engine/virtualbox/virtualbox.go:203-205 | mounting always fails as not implemented, with no call and no change |
| VirtualBox.IP | engine/virtualbox/virtualbox.go:199-201 | IP discovery always fails as not implemented |
| VirtualBox.CreateSnapshotOnce | engine/virtualbox/virtualbox.go:231-235 | once the snapshot exists, ensuring it again only looks for it |
| VirtualBox.PathStaysMachineFile | engine/virtualbox/virtualbox.go:80-82 | clone, restart and delete keep the path empty or naming a `.vbox` file |
| VirtualBox.DeleteIdempotent | engine/virtualbox/virtualbox.go:172-176 | after a successful delete, deleting again runs nothing and succeeds |
| VirtualBox.ImplicitSnapshotNotRecorded | engine/virtualbox/virtualbox.go:94-96 | a source without a snapshot is recorded bare, although the engine's own snapshot was prepared and used |
| VirtualBox.RecloneFromRecord | engine/virtualbox/virtualbox.go:46-49 | cloning again from the record alone in the same directory repeats the same `vboxmanage clonevm` call |
| Unknown.Clone | engine/unknown/unknown.go:18-23 | a given source is an unrecognised format, no source is "no configuration"; nothing runs and the record is unchanged |
| Unknown.Refuse | engine/unknown/unknown.go:25-47 | every other lifecycle call fails with "no configuration", runs nothing and leaves the record unchanged |
| Unknown.Found | engine/unknown/unknown.go:49-51 | the rejecting engine never finds a machine; `Engine.Found` and `Engine.FoundNeedsPath` state this for every record and host |
| Unknown.IP | engine/unknown/unknown.go:41-43 | IP discovery fails with "no configuration" |
| LegacyVMware.Found | vmware/vmware.go:112-124 | the same test as the current engine: a non-empty descriptor path naming an existing file; `Clone` states what a found or missing guest leads to |
| LegacyVMware.Clone | vmware/vmware.go:49-110 | the source is never written; at most one tool runs; when the reconciliation finishes that is the outcome with no call; a failed `mkdir .lovm` or `getwd` fails with no call; otherwise exactly the current engine's `vmrun clone` command runs and, whatever its status, the path points at the target and the outcome is the tool's |
| LegacyVMware.Start | vmware/vmware.go:126-140 | a failed clone is returned as it is; after a successful clone, `vmrun start <path> nogui` runs on the clone's path after the clone's calls, and start succeeds exactly when that tool succeeded |
| LegacyVMware.Stop | vmware/vmware.go:142-162 | stop behaves as the current engine's stop and leaves the record unchanged |
| LegacyVMware.Restart | vmware/vmware.go:164-172 | a failed stop is returned as it is; otherwise the result is the legacy start's, after the stop's calls |
| LegacyVMware.StartFoundMachine | vmware/vmware.go:126-140 | an existing clone with a recorded source is started directly: the only call is `vmrun start`, and its status is the outcome |
| LegacyVMware.StartWithoutSource | vmware/vmware.go:49-53 | with no recorded source, start fails for lack of a clone source and runs nothing |
| LegacyVMware.RestartMissing | vmware/vmware.go:142-172 | when no guest exists, stop is a silent success and restart is exactly start |
| LegacyVMware.Delete | vmware/vmware.go:301-325 | delete behaves as the current engine's delete: success exactly when no guest was found or the path was cleared |
| LegacyVMware.Mount | vmware/vmware.go:328-332 | mounting always fails with the legacy "not implemented" error |
| LegacyVMware.IP | vmware/vmware.go:176-299 | the same discovery as the current engine; `NotFound` exactly when no interface of the descriptor is leased |
| LegacyVMware.SameCloneCommand | vmware/vmware.go:76-98 | unless the snapshot is powered on, both engines run the same clone command, set the same path and return the same outcome |
| LegacyVMware.ForgetsSource | vmware/vmware.go:106-107 | after a clone from a fresh record and a delete, start fails for lack of a source, because the legacy clone never recorded one |
| Engine.TagsDistinct | engine/engine.go:21-27 | the three engine tags are pairwise distinct |
| Engine.Identify | engine/engine.go:14-28 | the kind is VMware exactly when the base before the first colon ends in `.vmx`, VirtualBox exactly when it ends in `.vbox`, and unknown otherwise |
| Engine.IdentifyIgnoresSnapshot | engine/engine.go:15-19 | a snapshot suffix never changes the classification of a colon-free base |
| Engine.IdentifyVmx | engine/engine_test.go:28 | `/path/to/some.vmx` is VMware |
| Engine.IdentifyVmxSnapshot | engine/engine_test.go:29 | `/path/to/some.vmx:snapshotID` is VMware |
| Engine.IdentifyVbox | engine/engine_test.go:30 | `/path/to/some.vbox` is VirtualBox |
| Engine.IdentifyOther | engine/engine_test.go:31 | `/path/to/something.else` is unknown |
| Engine.Run | engine/engine.go:32-40 | every backend keeps the mounts and engine tag; the unknown backend fails, runs nothing and keeps the record; mount always fails with no call; stop never changes the record |
| Engine.RunVMware | engine/engine.go:32-35 | a source whose base ends in `.vmx` gets the VMware engine: clone, start and stop are that engine's |
| Engine.RunVMwareRest | engine/engine.go:32-35 | for the same sources, restart, delete and mount are the VMware engine's |
| Engine.RunVirtualBox | engine/engine.go:32-37 | a source whose base ends in `.vbox` gets the VirtualBox engine: clone, start and stop are that engine's |
| Engine.RunVirtualBoxRest | engine/engine.go:32-37 | for the same sources, restart, delete and mount are the VirtualBox engine's |
| Engine.RunUnknown | engine/engine.go:32-40 | any other source gets the rejecting engine: clone reports the format, every other call refuses |
| Engine.IPVMware | engine/engine.go:32-35 | a source whose base ends in `.vmx` gets its address from the VMware engine's discovery |
| Engine.Found | engine/engine.go:32-40 | a machine is found exactly when the selected engine is VMware or VirtualBox and its path is non-empty and names an existing file |
| Engine.IP | engine/engine.go:32-40 | the VMware kind answers with the VMware engine's discovery, VirtualBox with "not implemented" and the unknown backend with "no configuration"; only VMware with a readable descriptor finds an address |
| Engine.FoundNeedsPath | engine/engine.go:32-40 | a machine is found only by VMware or VirtualBox, and only at a non-empty path that exists |
| Engine.RecordedSourceKeepsEngine | engine/engine.go:14-28 | the source a clone records selects the same backend on every later run |
| Ssh.IsBoolFlags | cli/ssh.go:23-43 | a dash followed by one or more boolean flag letters; `CheckBoolFlags`, the program's nested byte scan, agrees with it on every argument, and `BoolFlagExamples` holds the test table's cases |
| Ssh.IsOptionFlag | cli/ssh.go:45-59 | exactly two characters, a dash and an option letter; `CheckOptionFlag`, the program's byte scan, agrees with it on every argument, and `OptionFlagExamples` and `NotOptionFlagExamples` hold the test table's cases |
| Ssh.ScanLetters | cli/ssh.go:31-41 | the byte scan finds a letter exactly when it is in the letter list |
| Ssh.CheckBoolFlags | cli/ssh.go:23-43 | true exactly for a dash followed by one or more boolean flag letters |
| Ssh.CheckOptionFlag | cli/ssh.go:45-59 | true exactly for a dash followed by one option letter |
| Ssh.SplitIndex | cli/ssh.go:89-99 | the loop stops at an index at or below the length of the arguments |
| Ssh.SplitIndexStops | cli/ssh.go:89-99 | before the stopping index lies a run of boolean flags and options with their arguments, and after it a remote part that cannot continue the run |
| Ssh.SplitRemoteCommands | cli/ssh.go:82-106 | the two parts concatenate to the input; the first is a flag run, and the second starts where no flag run can continue |
| Ssh.SplitIndexUnique | cli/ssh.go:89-99 | any index where a flag run ends and the remote part begins is the one the loop finds |
| Ssh.SplitUnique | cli/ssh.go:82-106 | the split is the only division of the arguments into a flag run and a remote part |
| Ssh.SplitAtRemote | cli/ssh.go:89-99 | arguments that begin where no flag run can continue are all remote command |
| Ssh.SplitAfterBoolFlag | cli/ssh.go:90-93 | a boolean flag in front joins the ssh part and leaves the split of the rest unchanged |
| Ssh.BoolFlagThenRemote | cli/ssh.go:90-93 | one boolean flag followed by the start of a remote command splits after the flag |
| Ssh.BoolFlagWins | cli/ssh.go:90-93 | `-s` and `-t`, which are both boolean and option letters, never take the next argument |
| Ssh.BuildCommand | cli/ssh.go:108-114 | `ssh`, the flags, the address and the remote command: the address sits exactly where the flag run ends, and removing it gives back the user's arguments |
| Ssh.BoolFlagExamples | cli/ssh_test.go:9-29 | the boolean flag cases of the test table |
| Ssh.OptionLettersAreNotBoolFlags | cli/ssh_test.go:14-15 | `-b` and `-c` are not boolean flags |
| Ssh.OptionFlagExamples | cli/ssh_test.go:33-34 | `-b` and `-c` are option flags |
| Ssh.NotOptionFlagExamples | cli/ssh_test.go:35-37 | `c`, `-bc` and `-q` are not option flags |
| Ssh.SplitNothing | cli/ssh_test.go:68-71 | no arguments give two empty parts |
| Ssh.SplitOnlyRemote | cli/ssh_test.go:72-75 | `sudo shutdown -r now` is all remote command |
| Ssh.SplitOnlyOption | cli/ssh_test.go:76-79 | `-i ~/.ssh/id_rsa` is all ssh options |
| Ssh.SplitOptionThenRemote | cli/ssh_test.go:80-83 | `-l root shutdown -r now` splits after `root` |
| Ssh.BuildWithLogin | cli/ssh_test.go:109-113 | the address follows `-l root` |
| Ssh.BuildWithRemoteCommand | cli/ssh_test.go:114-118 | the address precedes `shutdown -h now` |
| Ssh.BuildWithBoth | cli/ssh_test.go:119-123 | the address sits between `-l root` and `shutdown -h now` |
| Cli.ParseArgs | cli/cli.go:14-27 | fewer than two words give no command and no arguments; otherwise the program name, the command and the arguments rebuild the input |
| Cli.ParseClone | cli/cli.go:29-47 | success exactly with one argument, or with none when a source is recorded; one argument is the source and sets the engine tag from it; no argument without a record and more than one argument are the two distinct errors |
| Cli.ParseMountsAsWritten | cli/cli.go:49-57 | the assignment panics exactly when two arguments meet a nil mount table; any other argument count is the argument error |
| Cli.ParseMounts | cli/cli.go:49-57 | success exactly with two arguments; the host path then maps to the guest path, every other entry and field is kept, and a nil table counts as empty |
| Cli.MountsAgreeWhenPresent | cli/cli.go:54 | with a mount table present, the program's parse and the corrected parse agree |
| Cli.FreshRecordMountPanics | cli/cli.go:54 | `mount a b` on the record made when no sidecar file exists panics as written, and the corrected parse records `a -> b` |
| Cli.MountIdempotent | cli/cli.go:54 | adding the same mount twice gives the same record as adding it once |
| Cli.HandleClone | cli/cli.go:136-148 | the mounts are kept; a rejected argument list runs nothing and keeps the record; with no argument and a recorded source the recorded source's engine runs `Clone("")` on the record; a given source re-tags the record with its own engine, which then runs `Clone(source)` and whose step is returned |
| Cli.HandleSsh | cli/ssh.go:116-140 | the record is untouched; a discovery error is returned with no call; after a successful discovery exactly `ssh` built around the discovered address runs, and its status is the outcome |
| Cli.HandleIp | cli/cli.go:166-171 | the record is untouched and nothing runs; success exactly when the backend finds an address |
| Cli.HandleMount | cli/cli.go:172-178 | mount always fails and runs nothing; with two arguments the in-memory record carries the new mount, otherwise it is unchanged |
| Cli.Handle | cli/cli.go:136-182 | `start`, `stop`, `restart` and `delete` run that operation on the engine the recorded source selects and return its step; only `mount` changes the mounts, and it always fails; `ip`, `ssh` and `stop` never change the record |
| Cli.Save | cli/cli.go:188-193 | the handler's calls are kept, and the handler's record is written exactly when the file is writable |
| Cli.InitialConfig | cli/cli.go:89-103 | a loaded `machine.lovm` is used as it is; without one the record is empty: no path, source or engine tag, a nil mount table, and the rejecting engine selected |
| Cli.Main | cli/cli.go:111-196 | a written record implies success of a handler other than `mount`; getwd or sidecar failures fail and run nothing; help succeeds without writing or running anything; unknown commands fail and write nothing |
| Cli.MainRunsHandler | cli/cli.go:149-193 | for a dispatched command the result is the handler's error with nothing written, or the save of the handler's record |
| Cli.SaveOnlyOnSuccess | cli/cli.go:188-193 | the record is written exactly when the handler succeeded and the file is writable; what is written is the handler's record, and the calls are the handler's |
| Cli.MountNeverSaves | cli/cli.go:172-178 | `mount` never writes the record |
| Cli.CloneGivenSource | cli/cli.go:143-146 | with one argument, `clone` runs the clone of the given source's backend on the record tagged with that backend |
| Cli.CloneUsesGivenSource | cli/cli.go:136-148 | `clone <source>` runs the given source's backend whatever the record selects, writes exactly when that clone succeeded, and writes that backend's tag |
| Commands.Main | commands/cli.go:69-187 | a written record implies success and a non-zero record; getwd or sidecar failures fail and run nothing; dispatcher answers run no tool |
| Commands.SaveGuard | commands/cli.go:176-184 | for a handler, the record is written exactly when it succeeded, differs from the zero record and the file is writable |
| Commands.FreshBuiltinWritesNothing | commands/cli.go:176-180 | a dispatcher answer such as help, in a directory without a sidecar file, writes nothing |
| Commands.BuiltinRewritesExisting | commands/cli.go:168-184 | a successful dispatcher answer rewrites an existing non-zero record unchanged |
| Commands.FrontEndsAgree | commands/cli.go:82-157 | for a registered command both front ends run the same tools, and they write the same record unless it is the zero record |

## Left out

- Process execution, standard input and output, and logging are not modelled.
  Each native tool call is an argv handed to `Host.run`, which gives back its
  exit status and combined output. Nothing the program prints is modelled.
- The regular expressions are not modelled. Over the descriptor, networking
  and lease files they are replaced by their captured groups, passed in as
  `VmxMatch`, network tokens and `LeaseMatch` values.
- The parsing of lease times, `time.Now` and `net.ParseIP` are not modelled.
  Lease windows are already-parsed optional integers. `now` is a field of
  the host. A lease address is an optional parsed value beside its text.
- `net.ParseMAC` is modelled for the colon form only. The capture groups admit
  only hexadecimal digits and colons, so the hyphen and dot forms cannot
  reach it.
- `strconv.ParseInt(s, 10, 0)` is modelled for a 64-bit `int`. Wrap-around on
  32-bit platforms is not.
- Reading and writing `machine.lovm` as JSON is not modelled. The load is a
  `Sidecar` value (missing, unreadable or loaded); the save is a writable
  flag.
- `Help(args)` (cli/cli.go:135) is not part of this model. The `help` command
  is modelled as success with nothing written, like the other help words.
- cli/cli.go:59 and cli/ssh.go:116 both declare `SSH` in package `cli`. The
  ssh.go version, which builds the command with `BuildSSHCommand`, is the one
  modelled.
- `commands.SSH(args, machine, config)` is not part of this model. Its
  handler is modelled with the same behaviour as the ssh.go `SSH`.
- The external command dispatcher behind `app.Run` (commands/cli.go:168) is not
  part of this model. Its effect is an `Invocation`: either one registered
  handler ran, or the dispatcher answered by itself with some outcome.
- The `Identifier` constants of the VirtualBox and unknown backends are not
  part of this model. Their tags are written `"virtualbox"` and `"unknown"`;
  only their distinctness matters.
- `DetectIPFromMACAddress` (engine/vmware/vmware.go:559) calls
  `FindCurrentLeaseByMAC` with two arguments, although it is declared with
  three. The model passes the lease tables explicitly and reads the default
  lease file of each network.
- Go's unspecified map iteration order is not fixed. It is the host's
  `interfaceOrder`, which must enumerate the interface map.
- Paths are assumed clean. `BaseName` and `JoinPath` model `filepath.Split`
  and `filepath.Join` only for already-clean paths.
- `IsSSHBoolFlags` scans bytes, while the model scans characters. They agree
  on ASCII arguments.
- Cli.HandleMount: uses the corrected `Cli.ParseMounts`, so it does not reach
  the program's assignment into a nil mount table on a fresh record
  (cli/cli.go:54, cli/cli.go:98). That panic is modelled separately by
  `Cli.ParseMountsAsWritten` and `Cli.FreshRecordMountPanics`; see Findings.
- Cli.Main: dispatches `mount` to `Cli.HandleMount`, so it carries the same
  correction. As written, `lovm mount a b` without `machine.lovm` panics
  instead of failing with "not implemented".
- Commands.Main: runs `mount` through `Cli.HandleMount` as well, so the same
  panic of its own mount handler (commands/cli.go:40) is not reached there.
- Status output (cli/status.go), help text (cli/help.go), the program entry
  (lovm.go) and the `vm` package are outside the modelled core.

## Findings

| source | as written | input that shows it | evidently intended | confidence | as-written member | corrected member |
|---|---|---|---|---|---|---|
| cli/cli.go:54 (and commands/cli.go:40) | `machine.Mounts[args[0]] = args[1]` assigns into the record's map. That map is nil for the record `ConfigFromFileOrNew` makes when no `machine.lovm` exists (cli/cli.go:98), and for a file whose `mounts` is `null` or absent | `lovm mount /host /guest` in a directory without `machine.lovm` | the mount is added to an empty table, as for a record that has one | not executed | Cli.ParseMountsAsWritten, Cli.FreshRecordMountPanics | Cli.ParseMounts |
