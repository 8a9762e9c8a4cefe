# A verified model of `VMManager` (vm_runner.py)

`vm_runner.py` drives VirtualBox through its command-line tool `VBoxManage`.
Its `VMManager` finds the `VBoxManage` executable once, when it is made.
Every operation then checks that an executable was found, runs one or more
`VBoxManage` commands (or `ssh`, or Windows Terminal `wt`), and reads their
exit status and output. This project models that core in Dafny:

- **the parsers** that read `VBoxManage` output: VM names from `list vms`,
  the `VMState=` entry and the storage controller from `showvminfo
  --machinereadable`, and the IPv4 address from `guestproperty get`.
  They are built on the Python string operations they use (`split`, `strip`,
  `lower`, `in`), written out in module `PyStr`;
- **the command protocols**: the order of the executable search; the
  shutdown warning before the power command; the port "1", then port "0",
  then empty-drive fallback of the Guest Additions attach; the guestcontrol
  broadcast with its ssh fallback in the `message` action of `main`; and the
  read-status, start, re-read, connect sequence of
  `start_vm_and_open_a_terminal`.

Processes are not run. The host is a value of the datatype `Process.Host`.
`run(history, cmd)` gives the outcome of a command's argument list after the
commands issued before it. The outcome is one of: exit 0 with the captured
stdout, a non-zero exit, the timeout expiring, or the program not being found.
The host also holds `runWithInput` (the ssh call with the password on stdin),
`launch` (whether `subprocess.Popen` could start `wt`), `fileExists`
(`os.path.exists`) and `isoBeside` (the path of `VBoxGuestAdditions.iso`
next to the executable).

Each operation returns its result together with the commands it issued, in
order. Its effect is stated in three places:

- a specification function in module `Manager` (`Listing`, `StatusQuery`,
  `Saga`, ...);
- a method of the class `Manager.VMManager` that does the work step by step,
  with the source's loops. Each method is proved equal to its specification
  function;
- lemmas in `ManagerProperties`, `Locator`, `GuestAdditions`, `OutputParser`
  and `ParserSamples` that state the ordering and success properties of
  those functions.

`VMManager` keeps the located path in the field `vboxmanagePath`, set once by
the constructor. It also keeps `probes`, the `--version` probes that the
search issued.

Files: `wrappers.dfy` (Option), `pystr.dfy` (Python string operations),
`process.dfy` (the host and the argument lists), `output_parser.dfy`
(parsers), `parser_samples.dfy` (the parsers on sample replies),
`locator.dfy` (the executable search), `guest_additions.dfy` (the attach
saga), `manager.dfy` (specification functions, the `VMManager` class and the
properties of the operations).

Some behaviours of `vm_runner.py` that a reader might not expect, and that
the model keeps as the code has them:

- A timeout of the PATH probe is not caught by that probe's handler
  (vm_runner.py:107 catches only `CalledProcessError` and
  `FileNotFoundError`). The outer handler at vm_runner.py:132-135 then
  returns None, so a timeout there ends the whole search. A file candidate
  whose program cannot be launched ends the search the same way
  (vm_runner.py:95, 123 catch only `CalledProcessError` and `TimeoutExpired`).
- A status query that finds no `VMState=` line returns None
  (vm_runner.py:301-302), not a state of its own.
- `get_vm_ip` returns None both for a reply with `No value set!` and for a
  reply without `Value: ` (vm_runner.py:257-268); a caller cannot tell the
  two apart.
- A first controller line without `=` makes `line.split('=')[1]` raise an
  `IndexError` (vm_runner.py:348). The handler at vm_runner.py:436-438 turns it
  into a failed install.

## Model

| member | source | states |
|---|---|---|
| PyStr.SplitOn | vm_runner.py:153 | `str.split(sep)`: at least one piece, and two or more exactly when the separator occurs |
| PyStr.JoinSplitOn | vm_runner.py:153 | joining the pieces of a split with the separator gives back the text |
| PyStr.SplitOnPiecesAvoidSep | vm_runner.py:157 | no piece of a split contains the separator |
| PyStr.TrimStartSpec | vm_runner.py:153 | `lstrip` keeps a suffix, cuts only stripped characters, and keeps no stripped first character |
| PyStr.TrimEndSpec | vm_runner.py:153 | `rstrip` keeps a prefix, cuts only stripped characters, and keeps no stripped last character |
| PyStr.StripWithKeepsMiddle | vm_runner.py:297 | `strip` keeps one slice of the text, cut only of stripped characters on both sides, and neither end of it is stripped |
| PyStr.StripWithKeepsAbsence | vm_runner.py:297 | stripping cannot create an occurrence of a substring the text lacked |
| PyStr.StripWithIdempotent | vm_runner.py:263 | stripping twice equals stripping once |
| PyStr.StripWithEmpty | vm_runner.py:154 | a text strips to nothing exactly when every character is stripped |
| PyStr.Lower | vm_runner.py:347 | `lower` keeps the length, turns each ASCII capital into its lower-case letter, and changes no other character |
| PyStr.LowerIdempotent | vm_runner.py:347 | lowering twice is lowering once |
| PyStr.IndexOf | vm_runner.py:156 | the first index where a substring occurs, with no occurrence before it; None exactly when it occurs nowhere |
| PyStr.ContainsOccurs | vm_runner.py:156 | `sub in s` holds exactly when `sub` occurs at some index of `s` |
| PyStr.StartsWith | vm_runner.py:296 | `startswith(p)` holds exactly when `p` occurs at index 0 |
| PyStr.Strip | vm_runner.py:154 | `strip()` is never longer than the text; the general statement of what it keeps is `StripWithKeepsMiddle` |
| PyStr.StripQuotes | vm_runner.py:297 | `strip('"')` is never longer than the text; the general statement of what it keeps is `StripWithKeepsMiddle` |
| OutputParser.OutputLines | vm_runner.py:153 | `stdout.strip().split('\n')` has at least one line |
| OutputParser.FieldValue | vm_runner.py:297 | `line.split('=')[1].strip('"')` exists exactly when the line holds `=`; it is the quote-stripped text after the first `=`, up to the next `=` or the end, and holds no `=` |
| OutputParser.FirstWhere | vm_runner.py:296-299 | where a `for ... break` over the lines stops: None exactly when no line matches; otherwise a matching line with no match before it |
| OutputParser.ListedNameBetweenQuotes | vm_runner.py:155-157 | a listed name is the quote-free text right after the line's first `"`, ending at the next `"` or at the end of the line |
| OutputParser.ListedName | vm_runner.py:154-157 | a line gives a name exactly when it is not blank and holds `"`; the name holds no `"` |
| OutputParser.VmNames | vm_runner.py:152-158 | the listing has no more names than lines |
| OutputParser.VmNamesSnoc | vm_runner.py:153-157 | reading one more line appends exactly that line's contribution |
| OutputParser.VmNamesAppend | vm_runner.py:152-158 | the names of two blocks of lines are the first block's, then the second's |
| OutputParser.VmNamesOnePerLine | vm_runner.py:152-158 | when every line names a VM, the k-th name is the k-th line's, so names keep line order |
| OutputParser.VmNamesFromLines | vm_runner.py:152-158 | a name is reported exactly when some line carries it |
| OutputParser.UnquotedLineIgnored | vm_runner.py:156 | a line without `"` contributes nothing |
| OutputParser.StateLineHasField | vm_runner.py:296-297 | a `VMState=` line always has a value |
| OutputParser.StateOf | vm_runner.py:295-302 | a state exists exactly when some line starts with `VMState=`, and it is the value of the first such line |
| OutputParser.StateDecidedAt | vm_runner.py:296-299 | the first `VMState=` line decides the state, wherever it is |
| OutputParser.ControllerLineIgnoresCase | vm_runner.py:347 | the controller test ignores case: a line and its lower-cased form are judged alike |
| OutputParser.ScanControllers | vm_runner.py:346-349 | no controller exactly when no lowered line holds `storagecontrollername` and `ide` or `sata`; otherwise the first such line decides, failing when it has no `=` |
| OutputParser.ScanDecidedAt | vm_runner.py:346-349 | the first controller line decides the scan, wherever it is |
| OutputParser.ControllerName | vm_runner.py:351-356 | the controller is never empty; a found non-empty name is used as it is; it is `IDE Controller` exactly when none was found, the value was empty, or it was that name |
| OutputParser.IpOf | vm_runner.py:254-268 | None whenever `No value set!` occurs; an address exactly when `Value: ` occurs without it, equal to the stripped text between the first `Value: ` and the next; the address is stripped |
| ParserSamples.TwoLines | vm_runner.py:153 | two newline-free lines joined by a newline split back into those two |
| ParserSamples.QuotedValue | vm_runner.py:297 | `key="v"` yields `v` |
| ParserSamples.QuotedName | vm_runner.py:155-157 | a line `"name"` followed by anything yields `name` |
| ParserSamples.TwoListed | vm_runner.py:152-158 | two contributing lines give their two names, in order |
| ParserSamples.TwoListedLines | vm_runner.py:152-158 | the text of two quoted lines gives their two names, in order |
| ParserSamples.ListingSample | vm_runner.py:152-158 | the lines `"web-01" {u1}` and `"db-01" {u2}` give `web-01`, `db-01` |
| ParserSamples.SecondLineState | vm_runner.py:295-299 | a second line that is the first `VMState=` line gives the state |
| ParserSamples.NameLine | vm_runner.py:296 | `name="web"` is not a state line |
| ParserSamples.StateLine | vm_runner.py:296-297 | `VMState="s"` is a state line with value `s` |
| ParserSamples.StateSample | vm_runner.py:295-299 | `name="web"`, `VMState="running"` give the state `running` |
| ParserSamples.StateAbsentSample | vm_runner.py:301-302 | without a `VMState=` line there is no state |
| ParserSamples.IpAfterValueMarker | vm_runner.py:262-265 | `Value: a` and a newline give the address `a` |
| ParserSamples.IpValueSample | vm_runner.py:262-265 | `Value: 10.0.2.15` followed by a newline gives `10.0.2.15` |
| ParserSamples.IpNoValueSample | vm_runner.py:257-259 | `No value set!` gives no address |
| Locator.Judge | vm_runner.py:86-135 | a probe is accepted exactly when it exits 0; a non-zero exit always moves on; a timeout ends the search exactly for the PATH probe, and a missing program exactly for a file path |
| Locator.Search | vm_runner.py:67-135 | at most one probe per candidate; a found path is the name of the last probe issued |
| Locator.ProbedCands | vm_runner.py:85-127 | a candidate is probed exactly when it is the PATH name or an existing file; the order is given by `ProbedCandsAppend` |
| Locator.ProbedCandsAppend | vm_runner.py:85-127 | the probed candidates of two lists are those of the first, then those of the second |
| Locator.ShapeAfterNext | vm_runner.py:93-96 | a probe that moves on, followed by a search of the rest, is a search of the whole |
| Locator.ShapeAtStop | vm_runner.py:86-92 | a probe that is accepted or aborts ends the search with one probe |
| Locator.SearchSpec | vm_runner.py:67-135 | one probe per probed candidate, in order; every probe but the last moved on; the search found the last probed candidate exactly when its probe exited 0; when the last probe also moved on, every probed candidate was probed |
| Locator.CandidateOrder | vm_runner.py:71-127 | the probed order is the fixed path if it exists, then the PATH name, then the existing common paths in list order |
| Locator.SearchFindsProbed | vm_runner.py:82-127 | over any candidate list, a found path is the name of a probed candidate |
| Locator.SearchFindsCandidate | vm_runner.py:82-127 | a found path is a non-empty name of a probed candidate |
| Locator.WellKnownPathFirst | vm_runner.py:85-92 | an existing fixed path whose probe exits 0 is found with a single probe |
| Locator.FoundOnSearchPath | vm_runner.py:100-106 | with no fixed path and a PATH probe exiting 0, the bare name is found with a single probe |
| Locator.SearchPathTimeoutAborts | vm_runner.py:85-135 | when the fixed path is absent or its probe moved on, a timed-out PATH probe ends the search with None; no common path is probed |
| Locator.WellKnownPathProbedTwice | vm_runner.py:71-119 | a failing fixed path is probed again as the first common path, right after the PATH probe |
| Locator.ExhaustedSearch | vm_runner.py:110-135 | when every probe moves on, the result is None and every probed candidate was probed once |
| GuestAdditions.PortTries | vm_runner.py:358-381 | at most one attach per port, the first on the first port; a refusal means every port was tried; a mount ends with the ISO attach on the port it reached |
| GuestAdditions.AttachPhase | vm_runner.py:358-417 | one to four attaches, starting with the ISO on port "1"; success ends with an ISO attach on port "1" or "0" |
| GuestAdditions.NewDrive | vm_runner.py:383-417 | the empty drive on port "1" comes first; success means it and then the ISO attach on port "1" were both issued |
| GuestAdditions.AttachSteps | vm_runner.py:358-417 | one to four attaches, starting with the ISO on port "1"; success ends with an ISO attach on port "1" or "0" |
| GuestAdditions.PortShapeAfterRefusal | vm_runner.py:377-379 | a refused port, followed by a loop over the remaining ports, is a loop over all the ports |
| GuestAdditions.PortTriesSpec | vm_runner.py:358-379 | one ISO attach per port, in order, each refused but the last; the last outcome says whether the ISO was mounted or every port refused |
| GuestAdditions.Saga | vm_runner.py:319-438 | a missing ISO fails with no command; otherwise the first command is `showvminfo` |
| GuestAdditions.BothPortsRefused | vm_runner.py:358-381 | both ports refusing ends the loop as refused, after two attaches |
| GuestAdditions.LastPortRefused | vm_runner.py:377-379 | a refused single port ends the loop as refused |
| GuestAdditions.AttachPhaseTakesSteps | vm_runner.py:358-417 | the port loop and the new-drive fallback are the steps written out: port "1", port "0", empty drive on "1", ISO on "1" |
| GuestAdditions.SagaAttachSteps | vm_runner.py:339-417 | past a usable info reply, the saga is the info query, then those steps |
| GuestAdditions.SagaShortOfAttach | vm_runner.py:332-348 | a missing ISO, an info query that does not exit 0, or a controller line without `=` fails before any attach |
| GuestAdditions.Planned | vm_runner.py:339-410 | the saga's five possible commands: info, ISO on "1", ISO on "0", empty drive on "1", ISO on "1" |
| GuestAdditions.AttachStepsShape | vm_runner.py:358-428 | the attach steps issue a prefix of that plan, going on only on refusal (ISO) or success (empty drive), and succeed exactly when the last was a successful ISO attach |
| GuestAdditions.ShiftPlan | vm_runner.py:339-342 | the same holds seen from the whole saga, after a successful info query |
| GuestAdditions.SagaShape | vm_runner.py:339-428 | past the info query, the saga follows the plan for its controller and ISO |
| GuestAdditions.PlanSucceedsIffIsoAttached | vm_runner.py:419-428 | on the plan, success means some ISO attach exited 0, and it was the last command |
| GuestAdditions.SagaSucceedsIffIsoAttached | vm_runner.py:419-428 | the saga succeeds exactly when one of its ISO attaches exited 0, and nothing follows that attach |
| GuestAdditions.SagaInterruptionFails | vm_runner.py:430-438 | a command that times out or cannot be launched is the saga's last, and the saga fails |
| GuestAdditions.PlanEmptyDrive | vm_runner.py:383-417 | on the plan, an empty-drive attach comes fourth, after both ports refused the ISO |
| GuestAdditions.EmptyDriveOnlyAfterBothPortsRefused | vm_runner.py:383-417 | an empty drive is attached only as the fourth command, on port "1", after port "1" then port "0" refused the ISO; when it works, the ISO attach on port "1" follows and is last |
| GuestAdditions.SecondPortTakesIso | vm_runner.py:358-381 | port "1" refusing and port "0" accepting is success after three commands, with no new drive |
| GuestAdditions.BothPortsRefusedTriesNewDrive | vm_runner.py:383-398 | both ports refusing leads to the empty-drive attach on port "1" as the fourth command |
| Manager.Listing | vm_runner.py:137-172 | no binary: no names and no command; otherwise the single `list vms` command, with no names unless it exits 0 |
| Manager.StatusQuery | vm_runner.py:280-312 | no binary: None and no command; otherwise the single `showvminfo` command, with a state only when it exits 0 |
| Manager.IpQuery | vm_runner.py:238-278 | no binary: None and no command; otherwise the single `guestproperty get` command, with an address only when it exits 0 |
| Manager.StartRun | vm_runner.py:174-202 | one `startvm` command in the requested mode; success exactly when it exits 0 |
| Manager.BroadcastRun | vm_runner.py:482-515 | one guestcontrol `wall` command; success exactly when it exits 0 |
| Manager.StopRun | vm_runner.py:204-236 | the warning to `nhu`, then the power command; success exactly when the power command exits 0 |
| Manager.SshMessageRun | vm_runner.py:440-480 | the address lookup, then ssh only with a non-empty address; success exactly when that ssh exits 0 |
| Manager.TerminalRun | vm_runner.py:517-548 | the address lookup, then `wt` only with a non-empty address; success exactly when it launches |
| Manager.GuestAdditionsRun | vm_runner.py:319-323 | no binary: failure and no command; otherwise the attach saga |
| Manager.StartAndConnect | vm_runner.py:550-565 | the result is 0 or 1 |
| Manager.VMManager.constructor | vm_runner.py:61-65 | the path and the probes are the executable search's |
| Manager.VMManager.FindVBoxManage | vm_runner.py:67-135 | the candidate loop with early return equals the search |
| Manager.VMManager.ListVms | vm_runner.py:137-172 | the line loop that appends names equals `Listing` |
| Manager.VMManager.GetVmStatus | vm_runner.py:280-312 | the line loop that returns at the first `VMState=` line equals `StatusQuery` |
| Manager.VMManager.GetVmIp | vm_runner.py:238-278 | equals `IpQuery` |
| Manager.VMManager.StartVm | vm_runner.py:174-202 | equals `StartRun` |
| Manager.VMManager.BroadcastMessageToVm | vm_runner.py:482-515 | equals `BroadcastRun` |
| Manager.VMManager.StopVm | vm_runner.py:204-236 | equals `StopRun` |
| Manager.VMManager.SendMessageToVm | vm_runner.py:440-480 | equals `SshMessageRun` |
| Manager.VMManager.OpenTerminal | vm_runner.py:517-548 | equals `TerminalRun` |
| Manager.VMManager.FindController | vm_runner.py:346-349 | the line loop that breaks at the first controller line equals `ScanControllers` |
| Manager.VMManager.TryPorts | vm_runner.py:358-381 | the port loop with its `mounted` flag equals `PortTries` |
| Manager.VMManager.InstallGuestAdditions | vm_runner.py:319-438 | equals `GuestAdditionsRun` |
| Manager.VMManager.StartVmAndOpenATerminal | vm_runner.py:550-565 | equals `StartAndConnect` |
| ManagerProperties.NothingWithoutBinary | vm_runner.py:206-208 | without a located binary, listing, status, stop, install and the message action fail at once and issue nothing; start-and-connect returns 1 |
| ManagerProperties.ListingReportsListedNames | vm_runner.py:137-172 | a listing that exits 0 reports exactly the names its lines carry; any other outcome reports none |
| ManagerProperties.StatusReportsStateLine | vm_runner.py:280-312 | a state is reported exactly when the info query exits 0 and has a `VMState=` line, and it is the value of the first such line |
| ManagerProperties.IpReportsValue | vm_runner.py:238-278 | an address is reported exactly when the query exits 0 with `Value: ` and without `No value set!`; it is the stripped text between the first `Value: ` and the next one, or the end |
| ManagerProperties.NoAddressNoConnection | vm_runner.py:450-453 | with no usable address, the ssh message and the terminal fail right after the lookup |
| Manager.MessageWithFallback | vm_runner.py:715-727 | the broadcast's commands come first; the action succeeds exactly when the broadcast did, or a non-empty password was given and the ssh message that follows it did |
| ManagerProperties.MessageFallbackShape | vm_runner.py:715-727 | the broadcast comes first; the lookup and at most one ssh follow exactly when the broadcast failed and a non-empty password was given; success means the broadcast or that ssh exited 0 |
| ManagerProperties.NoPasswordNoSsh | vm_runner.py:718 | without a non-empty password the action is the broadcast alone, and no ssh is issued |
| ManagerProperties.BroadcastSettles | vm_runner.py:716-718 | a broadcast that exits 0 settles the action, with no lookup and no ssh |
| ManagerProperties.SshFallbackDelivers | vm_runner.py:718-721 | a failed broadcast, a password, a usable address and a successful ssh give success after three commands |
| ManagerProperties.StopShape | vm_runner.py:209-222 | the warning comes before the single `controlvm`; `acpipowerbutton` exactly when graceful; only the power command decides the result |
| ManagerProperties.StopIgnoresWarning | vm_runner.py:209 | hosts that agree on the power command give the same stop result, whatever the warning yielded |
| ManagerProperties.BeforeSecondReading | vm_runner.py:553-559 | the commands before the second reading: one reading, then possibly `startvm` |
| ManagerProperties.StartAndConnectParts | vm_runner.py:553-565 | the reading and start, then the second reading, then the terminal only when that reading is `running`; the result is 0 exactly then |
| ManagerProperties.StartAndConnectShape | vm_runner.py:553-565 | `startvm` (headless) sits right after the first reading unless it was `running`; the status is always read again; 0 exactly when that reading exits 0 with `running`, then the lookup follows; with 1 nothing follows |
| ManagerProperties.TerminalStartsWithLookup | vm_runner.py:527 | the terminal begins with the address lookup |
| ManagerProperties.StartOnlyWhenNotRunning | vm_runner.py:556-559 | `startvm` is issued at most once, right after the first reading, and only when that reading is not `running` |
| ManagerProperties.OnlyStartAtOne | vm_runner.py:556-559 | in the reading, start, reading, terminal sequence, a `startvm` can only sit at index 1 |
| ManagerProperties.TerminalCommands | vm_runner.py:517-548 | the terminal issues no `startvm` |
| ManagerProperties.StartAndConnectIgnoresTerminal | vm_runner.py:564-565 | the result and the commands do not depend on whether the terminal launched |
| ManagerProperties.AlreadyRunning | vm_runner.py:556-565 | a VM running at both readings is not started, and the result is 0 |

## Left out

- Logging, `ColoredFormatter` and `get_logger`: they are presentation only, so every logging call is a no-op in the model.
- `main`'s argument parsing, its interactive prompts and its printing are left out as I/O. Only its message fallback decision is modelled (`Manager.MessageWithFallback`). The `svo` branch takes the 0 that `start_vm_and_open_a_terminal` returns on success as failure. `Manager.StartAndConnect` keeps the 0/1 return as written.
- Process execution, timeouts and `subprocess.Popen` are abstracted behind the host oracle. The timeout lengths (10, 30 and 60 seconds) are not modelled; only the fact that a timeout expired is.
- `Missing` stands for `FileNotFoundError`. Other launch errors, such as a `PermissionError`, are not modelled. Every handler but one treats them like `FileNotFoundError`. The exception is the PATH probe, where they would end the search instead of moving on.
- `get_vm_config` is left out because it is a stub that returns None.
- Path joining for the ISO location is the oracle `isoBeside`; the ISO path is an opaque string.
- `start_vm_and_open_a_terminal`'s check for a None name or user only logs, so it is left out. Names and users are strings in the model.
- PyStr.Lower: only ASCII letters are lowered; Python's full Unicode case mapping is not modelled.
- PyStr.Strip: its own contract gives only the length bound, because stating the full slice there makes every parser proof costlier. `PyStr.StripWithKeepsMiddle` states the full property for every set of stripped characters.
- PyStr.StripQuotes: the same holds; its full property is `PyStr.StripWithKeepsMiddle` with the double quote as the stripped character.
- Manager.Listing, Manager.StatusQuery, Manager.IpQuery: their own contracts speak of the commands and the exit status only. What the replies parse to is stated in `ManagerProperties.ListingReportsListedNames` (which names), `StatusReportsStateLine` and `IpReportsValue`. The order of the names and their one-per-line correspondence are stated in `OutputParser.VmNamesAppend`, `OutputParser.VmNamesOnePerLine` and `OutputParser.VmNamesSnoc`; the parses themselves in `OutputParser.StateOf` and `OutputParser.IpOf`.
- ParserSamples.ListingSample, ParserSamples.StateSample: these start from the lines of the reply, not its raw text. The step from raw text to lines is `ParserSamples.TwoListedLines` and `OutputParser.OutputLines`.
