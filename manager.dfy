/**
  `VMManager`: every operation first checks that a VBoxManage binary was
  located, then issues its commands and reads their outcomes. Each operation
  is given the host and the commands issued before it, and returns its
  result together with the commands it issued, in order. The functions
  below say what each operation does; the class's methods do it step by
  step and are proved to agree with them.
 */
module Manager {
  import opened Wrappers
  import opened PyStr
  import opened Process
  import opened OutputParser
  import opened Locator
  import opened GuestAdditions

  const RunningState := "running"
  const WarnUser := "nhu"
  const ShutdownWarning := "System will be shutdown"

  /** Python's truthiness of an optional string: present and not empty. */
  predicate Truthy(s: Option<string>) {
    s.Some? && s.value != []
  }

  // ---------------------------------------------------------------------
  // What each operation does
  // ---------------------------------------------------------------------

  /** `list_vms`: the names of the listing, or none when the listing does not exit 0. */
  function Listing(env: Host, binary: Option<string>, past: seq<Cmd>): (r: (seq<string>, seq<Cmd>))
    ensures binary.None? ==> r == ([], [])
    ensures binary.Some? ==> r.1 == [ListCmd(binary.value)]
    ensures binary.Some? && !env.run(past, ListCmd(binary.value)).Ok? ==> r.0 == []
  {
    match binary
    case None => ([], [])
    case Some(p) =>
      var cmd := ListCmd(p);
      match env.run(past, cmd)
      case Ok(out) => (VmNames(OutputLines(out)), [cmd])
      case _ => ([], [cmd])
  }

  /** `get_vm_status`: the `VMState=` value of the machine-readable info, or None. */
  function StatusQuery(env: Host, binary: Option<string>, past: seq<Cmd>, vm: string): (r: (Option<string>, seq<Cmd>))
    ensures binary.None? ==> r == (None, [])
    ensures binary.Some? ==> r.1 == [InfoCmd(binary.value, vm)]
    ensures r.0.Some? ==> binary.Some? && env.run(past, InfoCmd(binary.value, vm)).Ok?
  {
    match binary
    case None => (None, [])
    case Some(p) =>
      var cmd := InfoCmd(p, vm);
      match env.run(past, cmd)
      case Ok(out) => (StateOf(OutputLines(out)), [cmd])
      case _ => (None, [cmd])
  }

  /** `get_vm_ip`: the address in the guest-property reply, or None. */
  function IpQuery(env: Host, binary: Option<string>, past: seq<Cmd>, vm: string): (r: (Option<string>, seq<Cmd>))
    ensures binary.None? ==> r == (None, [])
    ensures binary.Some? ==> r.1 == [IpCmd(binary.value, vm)]
    ensures r.0.Some? ==> binary.Some? && env.run(past, IpCmd(binary.value, vm)).Ok?
  {
    match binary
    case None => (None, [])
    case Some(p) =>
      var cmd := IpCmd(p, vm);
      match env.run(past, cmd)
      case Ok(out) => (IpOf(out), [cmd])
      case _ => (None, [cmd])
  }

  /** `start_vm`: one `startvm` command; success iff it exits 0. */
  function StartRun(env: Host, binary: Option<string>, past: seq<Cmd>, vm: string, headless: bool): (r: (bool, seq<Cmd>))
    ensures binary.None? ==> r == (false, [])
    ensures binary.Some? ==> r.1 == [StartCmd(binary.value, vm, headless)]
    ensures r.0 <==> binary.Some? && env.run(past, StartCmd(binary.value, vm, headless)).Ok?
  {
    match binary
    case None => (false, [])
    case Some(p) => (env.run(past, StartCmd(p, vm, headless)).Ok?, [StartCmd(p, vm, headless)])
  }

  /**
    `broadcast_message_to_vm`: `wall` run in the guest through guestcontrol;
    success iff it exits 0.
   */
  function BroadcastRun(env: Host, binary: Option<string>, past: seq<Cmd>, vm: string, user: string, message: string)
    : (r: (bool, seq<Cmd>))
    ensures binary.None? ==> r == (false, [])
    ensures binary.Some? ==> r.1 == [WallCmd(binary.value, vm, user, message)]
    ensures r.0 <==> binary.Some? && env.run(past, WallCmd(binary.value, vm, user, message)).Ok?
  {
    match binary
    case None => (false, [])
    case Some(p) => (env.run(past, WallCmd(p, vm, user, message)).Ok?, [WallCmd(p, vm, user, message)])
  }

  /**
    `stop_vm`: the shutdown warning to user `nhu`, then the power command;
    the outcome is the power command's alone.
   */
  function StopRun(env: Host, binary: Option<string>, past: seq<Cmd>, vm: string, graceful: bool): (r: (bool, seq<Cmd>))
    ensures binary.None? ==> r == (false, [])
    ensures binary.Some? ==> r.1 == [WallCmd(binary.value, vm, WarnUser, ShutdownWarning), ControlCmd(binary.value, vm, graceful)]
    ensures binary.Some? ==> (r.0 <==> OutcomeAt(env, past, r.1, 1).Ok?)
  {
    match binary
    case None => (false, [])
    case Some(p) =>
      var warn := BroadcastRun(env, binary, past, vm, WarnUser, ShutdownWarning);
      var control := ControlCmd(p, vm, graceful);
      assert past + (warn.1 + [control])[..1] == past + warn.1;
      (env.run(past + warn.1, control).Ok?, warn.1 + [control])
  }

  /**
    `send_message_to_vm`: look up the address; with a usable one, run `wall`
    over ssh with the password on standard input; success iff that exits 0.
   */
  function SshMessageRun(env: Host, binary: Option<string>, past: seq<Cmd>, vm: string, user: string, password: string,
                         message: string): (r: (bool, seq<Cmd>))
    ensures binary.None? ==> r == (false, [])
    ensures binary.Some? ==>
              var ip := IpQuery(env, binary, past, vm).0;
              && r.1 == [IpCmd(binary.value, vm)] + (if Truthy(ip) then [SshCmd(user, ip.value, message)] else [])
              && (r.0 <==> Truthy(ip) && env.runWithInput(past + [IpCmd(binary.value, vm)], SshCmd(user, ip.value, message), password).Ok?)
  {
    match binary
    case None => (false, [])
    case Some(_) =>
      var ip := IpQuery(env, binary, past, vm);
      if !Truthy(ip.0) then (false, ip.1)
      else
        var ssh := SshCmd(user, ip.0.value, message);
        (env.runWithInput(past + ip.1, ssh, password).Ok?, ip.1 + [ssh])
  }

  /** `open_terminal`: look up the address; with a usable one, launch Windows Terminal on an ssh session. */
  function TerminalRun(env: Host, binary: Option<string>, past: seq<Cmd>, vm: string, user: string): (r: (bool, seq<Cmd>))
    ensures binary.None? ==> r == (false, [])
    ensures binary.Some? ==>
              var ip := IpQuery(env, binary, past, vm).0;
              && r.1 == [IpCmd(binary.value, vm)] + (if Truthy(ip) then [TerminalCmd(vm, user, ip.value)] else [])
              && (r.0 <==> Truthy(ip) && env.launch(past + [IpCmd(binary.value, vm)], TerminalCmd(vm, user, ip.value)))
  {
    match binary
    case None => (false, [])
    case Some(_) =>
      var ip := IpQuery(env, binary, past, vm);
      if !Truthy(ip.0) then (false, ip.1)
      else
        var wt := TerminalCmd(vm, user, ip.0.value);
        (env.launch(past + ip.1, wt), ip.1 + [wt])
  }

  /** `install_guest_additions`: the attach saga for the located binary. */
  function GuestAdditionsRun(env: Host, binary: Option<string>, past: seq<Cmd>, vm: string): (r: (bool, seq<Cmd>))
    ensures binary.None? ==> r == (false, [])
    ensures binary.Some? ==> r == Saga(env, past, binary.value, vm)
  {
    match binary
    case None => (false, [])
    case Some(p) => Saga(env, past, p, vm)
  }

  /**
    `start_vm_and_open_a_terminal`: query the status; start the VM headless
    unless it is running; query the status again; unless the VM is running
    now, return 1; otherwise open a terminal, whatever comes of it, and
    return 0.
   */
  function StartAndConnect(env: Host, binary: Option<string>, past: seq<Cmd>, vm: string, user: string): (r: (int, seq<Cmd>))
    ensures r.0 == 0 || r.0 == 1
  {
    var first := StatusQuery(env, binary, past, vm);
    var start := if first.0 != Some(RunningState) then StartRun(env, binary, past + first.1, vm, true).1 else [];
    var before := first.1 + start;
    var again := StatusQuery(env, binary, past + before, vm);
    var checked := before + again.1;
    if again.0 != Some(RunningState) then (1, checked)
    else (0, checked + TerminalRun(env, binary, past + checked, vm, user).1)
  }

  /**
    The message action of the command line: broadcast through guestcontrol
    first; only when that fails and a non-empty password was given, fall
    back to the ssh message. The action succeeds if either does.
   */
  function MessageWithFallback(env: Host, binary: Option<string>, past: seq<Cmd>, vm: string, user: string,
                               password: Option<string>, message: string): (r: (bool, seq<Cmd>))
    ensures var broadcast := BroadcastRun(env, binary, past, vm, user, message);
            && |r.1| >= |broadcast.1| && r.1[..|broadcast.1|] == broadcast.1
            && (r.0 <==> broadcast.0 || (Truthy(password)
                         && SshMessageRun(env, binary, past + broadcast.1, vm, user, password.value, message).0))
  {
    var broadcast := BroadcastRun(env, binary, past, vm, user, message);
    if broadcast.0 || !Truthy(password) then broadcast
    else
      var ssh := SshMessageRun(env, binary, past + broadcast.1, vm, user, password.value, message);
      (ssh.0, broadcast.1 + ssh.1)
  }

  // ---------------------------------------------------------------------
  // The manager
  // ---------------------------------------------------------------------

  class VMManager {
    /** The located VBoxManage binary, set once when the manager is made. */
    const vboxmanagePath: Option<string>
    /** The `--version` probes the search issued. */
    const probes: seq<Cmd>

    constructor (env: Host, past: seq<Cmd>)
      ensures (vboxmanagePath, probes) == Search(env, past, Candidates())
    {
      var path, trace := FindVBoxManage(env, past);
      vboxmanagePath := path;
      probes := trace;
    }

    /** `find_vboxmanage`: the candidates in order, stopping at the first accepted one or at an uncaught failure. */
    static method FindVBoxManage(env: Host, past: seq<Cmd>) returns (path: Option<string>, trace: seq<Cmd>)
      ensures (path, trace) == Search(env, past, Candidates())
    {
      var cands := Candidates();
      trace := [];
      var i := 0;
      assert cands[0..] == cands && past + trace == past;
      ghost var whole := Search(env, past, cands);
      assert trace + whole.1 == whole.1;
      while i < |cands|
        invariant 0 <= i <= |cands|
        invariant var rest := Search(env, past + trace, cands[i..]);
                  Search(env, past, cands) == (rest.0, trace + rest.1)
      {
        var c := cands[i];
        ghost var h := past + trace;
        assert cands[i..][0] == c && cands[i..][1..] == cands[i + 1..];
        if Probed(env, c) {
          var probe := ProbeCmd(Name(c));
          var verdict := Judge(c, env.run(past + trace, probe));
          if verdict == Accept {
            return Some(Name(c)), trace + [probe];
          } else if verdict == Abort {
            return None, trace + [probe];
          }
          ghost var rest := Search(env, h + [probe], cands[i + 1..]);
          assert Search(env, h, cands[i..]) == (rest.0, [probe] + rest.1);
          assert trace + ([probe] + rest.1) == (trace + [probe]) + rest.1;
          assert h + [probe] == past + (trace + [probe]);
          trace := trace + [probe];
        } else {
          assert Search(env, h, cands[i..]) == Search(env, h, cands[i + 1..]);
        }
        i := i + 1;
      }
      assert trace + [] == trace;
      return None, trace;
    }

    method ListVms(env: Host, past: seq<Cmd>) returns (names: seq<string>, trace: seq<Cmd>)
      ensures (names, trace) == Listing(env, vboxmanagePath, past)
    {
      if vboxmanagePath.None? {
        return [], [];
      }
      var cmd := ListCmd(vboxmanagePath.value);
      trace := [cmd];
      names := [];
      var result := env.run(past, cmd);
      if result.Ok? {
        var lines := OutputLines(result.stdout);
        var i := 0;
        while i < |lines|
          invariant 0 <= i <= |lines|
          invariant names == VmNames(lines[..i])
        {
          var line := lines[i];
          VmNamesSnoc(lines, i);
          if Strip(line) != [] && Contains(line, "\"") {
            names := names + [SplitOn(line, "\"")[1]];
          }
          i := i + 1;
        }
        assert lines[..|lines|] == lines;
      }
    }

    method GetVmStatus(env: Host, past: seq<Cmd>, vm: string) returns (state: Option<string>, trace: seq<Cmd>)
      ensures (state, trace) == StatusQuery(env, vboxmanagePath, past, vm)
    {
      if vboxmanagePath.None? {
        return None, [];
      }
      var cmd := InfoCmd(vboxmanagePath.value, vm);
      trace := [cmd];
      var result := env.run(past, cmd);
      if !result.Ok? {
        return None, trace;
      }
      var lines := OutputLines(result.stdout);
      var i := 0;
      while i < |lines|
        invariant 0 <= i <= |lines|
        invariant forall k :: 0 <= k < i ==> !IsStateLine(lines[k])
      {
        var line := lines[i];
        if StartsWith(line, "VMState=") {
          StateLineHasField(line);
          StateDecidedAt(lines, i);
          return Some(StripQuotes(SplitOn(line, "=")[1])), trace;
        }
        i := i + 1;
      }
      return None, trace;
    }

    method GetVmIp(env: Host, past: seq<Cmd>, vm: string) returns (ip: Option<string>, trace: seq<Cmd>)
      ensures (ip, trace) == IpQuery(env, vboxmanagePath, past, vm)
    {
      if vboxmanagePath.None? {
        return None, [];
      }
      var cmd := IpCmd(vboxmanagePath.value, vm);
      trace := [cmd];
      var result := env.run(past, cmd);
      if !result.Ok? {
        return None, trace;
      }
      var output := Strip(result.stdout);
      if Contains(output, NoValueMarker) {
        return None, trace;
      }
      if Contains(output, ValueMarker) {
        return Some(Strip(SplitOn(output, ValueMarker)[1])), trace;
      }
      return None, trace;
    }

    method StartVm(env: Host, past: seq<Cmd>, vm: string, headless: bool) returns (ok: bool, trace: seq<Cmd>)
      ensures (ok, trace) == StartRun(env, vboxmanagePath, past, vm, headless)
    {
      if vboxmanagePath.None? {
        return false, [];
      }
      var cmd := StartCmd(vboxmanagePath.value, vm, headless);
      var result := env.run(past, cmd);
      return result.Ok?, [cmd];
    }

    method BroadcastMessageToVm(env: Host, past: seq<Cmd>, vm: string, user: string, message: string)
      returns (ok: bool, trace: seq<Cmd>)
      ensures (ok, trace) == BroadcastRun(env, vboxmanagePath, past, vm, user, message)
    {
      if vboxmanagePath.None? {
        return false, [];
      }
      var cmd := WallCmd(vboxmanagePath.value, vm, user, message);
      var result := env.run(past, cmd);
      return result.Ok?, [cmd];
    }

    method StopVm(env: Host, past: seq<Cmd>, vm: string, graceful: bool) returns (ok: bool, trace: seq<Cmd>)
      ensures (ok, trace) == StopRun(env, vboxmanagePath, past, vm, graceful)
    {
      if vboxmanagePath.None? {
        return false, [];
      }
      var warned, warning := BroadcastMessageToVm(env, past, vm, WarnUser, ShutdownWarning);
      var cmd := ControlCmd(vboxmanagePath.value, vm, graceful);
      var result := env.run(past + warning, cmd);
      return result.Ok?, warning + [cmd];
    }

    method SendMessageToVm(env: Host, past: seq<Cmd>, vm: string, user: string, password: string, message: string)
      returns (ok: bool, trace: seq<Cmd>)
      ensures (ok, trace) == SshMessageRun(env, vboxmanagePath, past, vm, user, password, message)
    {
      if vboxmanagePath.None? {
        return false, [];
      }
      var ip, lookup := GetVmIp(env, past, vm);
      if !Truthy(ip) {
        return false, lookup;
      }
      var cmd := SshCmd(user, ip.value, message);
      var result := env.runWithInput(past + lookup, cmd, password);
      return result.Ok?, lookup + [cmd];
    }

    method OpenTerminal(env: Host, past: seq<Cmd>, vm: string, user: string) returns (ok: bool, trace: seq<Cmd>)
      ensures (ok, trace) == TerminalRun(env, vboxmanagePath, past, vm, user)
    {
      if vboxmanagePath.None? {
        return false, [];
      }
      var ip, lookup := GetVmIp(env, past, vm);
      if !Truthy(ip) {
        return false, lookup;
      }
      var cmd := TerminalCmd(vm, user, ip.value);
      var launched := env.launch(past + lookup, cmd);
      return launched, lookup + [cmd];
    }

    /** The first IDE or SATA controller line of the info text decides the controller. */
    static method FindController(lines: seq<string>) returns (scan: ControllerScan)
      ensures scan == ScanControllers(lines)
    {
      var i := 0;
      while i < |lines|
        invariant 0 <= i <= |lines|
        invariant forall k :: 0 <= k < i ==> !IsControllerLine(lines[k])
      {
        var line := lines[i];
        if IsControllerLine(line) {
          ScanDecidedAt(lines, i);
          if !Contains(line, "=") {
            assert FieldValue(line).None?;
            return NoValue;
          }
          var name := StripQuotes(SplitOn(line, "=")[1]);
          assert FieldValue(line) == Some(name);
          return Found(name);
        }
        i := i + 1;
      }
      return NotFound;
    }

    /**
      The ISO on each port in turn: a refusal moves to the next port, a
      success ends the loop, and a timeout or a missing program escapes it.
     */
    static method TryPorts(env: Host, h: seq<Cmd>, binary: string, vm: string, ctl: string, iso: string)
      returns (m: Mount, tried: seq<Cmd>)
      ensures (m, tried) == PortTries(env, h, binary, vm, ctl, iso, PortsToTry)
    {
      var ports := PortsToTry;
      var mounted := false;
      tried := [];
      var j := 0;
      assert ports[0..] == ports && h + tried == h;
      ghost var whole := PortTries(env, h, binary, vm, ctl, iso, ports);
      assert tried + whole.1 == whole.1;
      while j < |ports|
        invariant 0 <= j <= |ports|
        invariant var rest := PortTries(env, h + tried, binary, vm, ctl, iso, ports[j..]);
                  PortTries(env, h, binary, vm, ctl, iso, ports) == (rest.0, tried + rest.1)
        invariant !mounted
      {
        var attach := AttachCmd(binary, vm, ctl, ports[j], iso);
        var outcome := env.run(h + tried, attach);
        assert ports[j..][0] == ports[j] && ports[j..][1..] == ports[j + 1..];
        if outcome.Ok? {
          assert PortTries(env, h + tried, binary, vm, ctl, iso, ports[j..]) == (Mounted, [attach]);
          tried := tried + [attach];
          mounted := true;
          break;
        } else if !outcome.Failed? {
          assert PortTries(env, h + tried, binary, vm, ctl, iso, ports[j..]) == (Aborted, [attach]);
          return Aborted, tried + [attach];
        }
        ghost var rest := PortTries(env, h + tried + [attach], binary, vm, ctl, iso, ports[j + 1..]);
        assert PortTries(env, h + tried, binary, vm, ctl, iso, ports[j..]) == (rest.0, [attach] + rest.1);
        assert tried + ([attach] + rest.1) == (tried + [attach]) + rest.1;
        assert h + tried + [attach] == h + (tried + [attach]);
        tried := tried + [attach];
        j := j + 1;
      }
      if mounted {
        return Mounted, tried;
      }
      assert tried + [] == tried;
      return Refused, tried;
    }

    method InstallGuestAdditions(env: Host, past: seq<Cmd>, vm: string) returns (ok: bool, trace: seq<Cmd>)
      ensures (ok, trace) == GuestAdditionsRun(env, vboxmanagePath, past, vm)
    {
      if vboxmanagePath.None? {
        return false, [];
      }
      var binary := vboxmanagePath.value;
      var iso := env.isoBeside(binary);
      if !env.fileExists(iso) {
        return false, [];
      }
      var info := InfoCmd(binary, vm);
      var result := env.run(past, info);
      if !result.Ok? {
        return false, [info];
      }
      var scan := FindController(SplitOn(result.stdout, "\n"));
      if scan.NoValue? {
        return false, [info];
      }
      var ctl := if scan.NotFound? || scan.name == [] then DefaultController else scan.name;
      var h := past + [info];
      var m, tried := TryPorts(env, h, binary, vm, ctl, iso);
      ghost var phase := AttachPhase(env, h, binary, vm, ctl, iso);
      if m != Refused {
        assert phase == (m == Mounted, tried);
        return m == Mounted, [info] + tried;
      }
      // Every port refused: add an empty drive on port "1", then the ISO in it.
      var drive := AttachCmd(binary, vm, ctl, NewDrivePort, EmptyDrive);
      var added := env.run(h + tried, drive);
      if !added.Ok? {
        assert phase == (false, tried + [drive]);
        return false, [info] + (tried + [drive]);
      }
      var attach := AttachCmd(binary, vm, ctl, NewDrivePort, iso);
      var inserted := env.run(h + tried + [drive], attach);
      assert phase == (inserted.Ok?, tried + [drive, attach]);
      return inserted.Ok?, [info] + (tried + [drive, attach]);
    }

    method StartVmAndOpenATerminal(env: Host, past: seq<Cmd>, vm: string, user: string) returns (code: int, trace: seq<Cmd>)
      ensures (code, trace) == StartAndConnect(env, vboxmanagePath, past, vm, user)
    {
      var status, first := GetVmStatus(env, past, vm);
      var start: seq<Cmd> := [];
      if status != Some(RunningState) {
        var started;
        started, start := StartVm(env, past + first, vm, true);
      }
      var before := first + start;
      var again, second := GetVmStatus(env, past + before, vm);
      var checked := before + second;
      if again != Some(RunningState) {
        return 1, checked;
      }
      var launched, terminal := OpenTerminal(env, past + checked, vm, user);
      return 0, checked + terminal;
    }
  }
}

/**
  What the operations of `Manager` promise, stated over the commands they
  issue and the outcomes the host gave them.
 */
module ManagerProperties {
  import opened Wrappers
  import opened PyStr
  import opened Process
  import opened OutputParser
  import opened Locator
  import opened Manager

  /** An ssh command of the fallback route. */
  predicate IsSsh(c: Cmd) {
    |c| == 7 && c[0] == "ssh"
  }

  /** A VBoxManage `startvm` command. */
  predicate IsStart(c: Cmd) {
    |c| >= 2 && c[1] == "startvm"
  }

  /** A VBoxManage `controlvm` command. */
  predicate IsControl(c: Cmd) {
    |c| >= 2 && c[1] == "controlvm"
  }

  // --- without a binary ----------------------------------------------------

  /** Without a located binary every operation fails at once and issues nothing. */
  lemma NothingWithoutBinary(env: Host, past: seq<Cmd>, vm: string, user: string, password: Option<string>,
                             message: string, graceful: bool)
    ensures Listing(env, None, past) == ([], [])
    ensures StatusQuery(env, None, past, vm) == (None, [])
    ensures StopRun(env, None, past, vm, graceful) == (false, [])
    ensures GuestAdditionsRun(env, None, past, vm) == (false, [])
    ensures MessageWithFallback(env, None, past, vm, user, password, message) == (false, [])
    ensures StartAndConnect(env, None, past, vm, user) == (1, [])
  {
    var none: seq<Cmd> := [];
    assert none + none == none;
  }

  // --- the queries -------------------------------------------------------

  /**
    `list_vms`: a listing that exits 0 reports exactly the names its lines
    carry; any other outcome reports no VM.
   */
  lemma ListingReportsListedNames(env: Host, b: string, past: seq<Cmd>, n: string)
    ensures var out := env.run(past, ListCmd(b));
            var names := Listing(env, Some(b), past).0;
            && (!out.Ok? ==> names == [])
            && (out.Ok? ==> (n in names <==>
                  exists k :: 0 <= k < |OutputLines(out.stdout)| && ListedName(OutputLines(out.stdout)[k]) == Some(n)))
  {
    var out := env.run(past, ListCmd(b));
    if out.Ok? {
      VmNamesFromLines(OutputLines(out.stdout), n);
    }
  }

  /**
    `get_vm_status`: a state is reported exactly when the info query exits 0
    and one of its lines starts with `VMState=`, and it is the value of the first such line.
   */
  lemma StatusReportsStateLine(env: Host, b: string, past: seq<Cmd>, vm: string)
    ensures var out := env.run(past, InfoCmd(b, vm));
            var state := StatusQuery(env, Some(b), past, vm).0;
            && (state.Some? <==> out.Ok? && exists k :: 0 <= k < |OutputLines(out.stdout)| && IsStateLine(OutputLines(out.stdout)[k]))
            && (state.Some? ==> exists k :: 0 <= k < |OutputLines(out.stdout)| && IsStateLine(OutputLines(out.stdout)[k])
                                  && (forall j :: 0 <= j < k ==> !IsStateLine(OutputLines(out.stdout)[j]))
                                  && FieldValue(OutputLines(out.stdout)[k]) == state)
  {
  }

  /**
    `get_vm_ip`: an address is reported exactly when the query exits 0 and
    its stripped reply carries `Value: ` but not `No value set!`; the
    address is the stripped text between the first `Value: ` and the next
    one (or the end), and has no surrounding white space.
   */
  lemma IpReportsValue(env: Host, b: string, past: seq<Cmd>, vm: string)
    ensures var out := env.run(past, IpCmd(b, vm));
            var ip := IpQuery(env, Some(b), past, vm).0;
            && (ip.Some? <==> out.Ok? && !Contains(Strip(out.stdout), NoValueMarker) && Contains(Strip(out.stdout), ValueMarker))
            && (ip.Some? ==> Strip(ip.value) == ip.value)
            && (ip.Some? ==>
                  var o := Strip(out.stdout);
                  var rest := o[IndexOf(o, ValueMarker).value + |ValueMarker|..];
                  ip.value == Strip(match IndexOf(rest, ValueMarker)
                                    case Some(j) => rest[..j]
                                    case None => rest))
  {
  }

  /** No ssh command and no terminal without a usable address: a missing or empty one stops after the lookup. */
  lemma NoAddressNoConnection(env: Host, b: string, past: seq<Cmd>, vm: string, user: string, password: string,
                              message: string)
    requires !Truthy(IpQuery(env, Some(b), past, vm).0)
    ensures SshMessageRun(env, Some(b), past, vm, user, password, message) == (false, [IpCmd(b, vm)])
    ensures TerminalRun(env, Some(b), past, vm, user) == (false, [IpCmd(b, vm)])
  {
  }

  // --- the message action ------------------------------------------------

  /**
    The message action: the broadcast comes first; the ssh route (an address
    lookup, then at most one ssh command) follows exactly when the broadcast
    did not exit 0 and a non-empty password was given; the action succeeds
    when the broadcast exits 0 or the ssh command does.
   */
  lemma MessageFallbackShape(env: Host, b: string, past: seq<Cmd>, vm: string, user: string, password: Option<string>,
                             message: string)
    ensures var r := MessageWithFallback(env, Some(b), past, vm, user, password, message);
            && 1 <= |r.1| <= 3
            && r.1[0] == WallCmd(b, vm, user, message)
            && (|r.1| > 1 <==> !OutcomeAt(env, past, r.1, 0).Ok? && Truthy(password))
            && (|r.1| > 1 ==> r.1[1] == IpCmd(b, vm))
            && (forall i :: 0 <= i < |r.1| && IsSsh(r.1[i]) ==> i == 2)
            && (r.0 <==> OutcomeAt(env, past, r.1, 0).Ok?
                         || (|r.1| == 3 && password.Some? && env.runWithInput(past + r.1[..2], r.1[2], password.value).Ok?))
  {
    var r := MessageWithFallback(env, Some(b), past, vm, user, password, message);
    var wall := WallCmd(b, vm, user, message);
    assert OutcomeAt(env, past, r.1, 0) == env.run(past, wall) by {
      assert past + r.1[..0] == past;
    }
    if |r.1| > 1 {
      var ssh := SshMessageRun(env, Some(b), past + [wall], vm, user, password.value, message);
      assert r.1 == [wall] + ssh.1;
      if |r.1| == 3 {
        assert past + r.1[..2] == past + [wall] + [IpCmd(b, vm)];
      }
    }
  }

  /** Without a non-empty password the message action is the broadcast alone. */
  lemma NoPasswordNoSsh(env: Host, binary: Option<string>, past: seq<Cmd>, vm: string, user: string,
                        password: Option<string>, message: string)
    requires !Truthy(password)
    ensures MessageWithFallback(env, binary, past, vm, user, password, message)
            == BroadcastRun(env, binary, past, vm, user, message)
    ensures forall c :: c in MessageWithFallback(env, binary, past, vm, user, password, message).1 ==> !IsSsh(c)
  {
  }

  /** A broadcast that exits 0 settles the action: no address lookup and no ssh follow. */
  lemma BroadcastSettles(env: Host, b: string, past: seq<Cmd>, vm: string, user: string, password: Option<string>,
                         message: string)
    requires env.run(past, WallCmd(b, vm, user, message)).Ok?
    ensures MessageWithFallback(env, Some(b), past, vm, user, password, message) == (true, [WallCmd(b, vm, user, message)])
  {
  }

  /**
    A failed broadcast with a password, a usable address and an ssh command
    exiting 0: three commands and success.
   */
  lemma SshFallbackDelivers(env: Host, b: string, past: seq<Cmd>, vm: string, user: string, password: string,
                            message: string, ip: string)
    requires password != []
    requires !env.run(past, WallCmd(b, vm, user, message)).Ok?
    requires IpQuery(env, Some(b), past + [WallCmd(b, vm, user, message)], vm).0 == Some(ip) && ip != []
    requires env.runWithInput(past + [WallCmd(b, vm, user, message), IpCmd(b, vm)], SshCmd(user, ip, message), password).Ok?
    ensures MessageWithFallback(env, Some(b), past, vm, user, Some(password), message)
            == (true, [WallCmd(b, vm, user, message), IpCmd(b, vm), SshCmd(user, ip, message)])
  {
    var wall := WallCmd(b, vm, user, message);
    var lookup := IpCmd(b, vm);
    assert past + [wall] + [lookup] == past + [wall, lookup];
    var ssh := SshMessageRun(env, Some(b), past + [wall], vm, user, password, message);
    assert [lookup] + [SshCmd(user, ip, message)] == [lookup, SshCmd(user, ip, message)];
    assert ssh == (true, [lookup, SshCmd(user, ip, message)]);
    assert [wall] + ssh.1 == [wall, lookup, SshCmd(user, ip, message)];
  }

  // --- stopping ------------------------------------------------------------

  /**
    Stopping warns the users first and then powers off; whatever the warning
    yields, only the power command decides the result, and the power command
    is the ACPI button exactly when the stop is graceful.
   */
  lemma StopShape(env: Host, b: string, past: seq<Cmd>, vm: string, graceful: bool)
    ensures var r := StopRun(env, Some(b), past, vm, graceful);
            && |r.1| == 2 && !IsControl(r.1[0]) && IsControl(r.1[1])
            && (r.1[1][3] == "acpipowerbutton" <==> graceful)
            && (r.0 <==> env.run(past + [r.1[0]], r.1[1]).Ok?)
  {
    var r := StopRun(env, Some(b), past, vm, graceful);
    assert past + r.1[..1] == past + [r.1[0]];
  }

  /** Two hosts that agree after the warning give the same stop result, however the warning went. */
  lemma StopIgnoresWarning(env: Host, env': Host, b: string, past: seq<Cmd>, vm: string, graceful: bool)
    requires env'.run(past + [WallCmd(b, vm, WarnUser, ShutdownWarning)], ControlCmd(b, vm, graceful))
             == env.run(past + [WallCmd(b, vm, WarnUser, ShutdownWarning)], ControlCmd(b, vm, graceful))
    ensures StopRun(env', Some(b), past, vm, graceful) == StopRun(env, Some(b), past, vm, graceful)
  {
    var r := StopRun(env, Some(b), past, vm, graceful);
    assert past + r.1[..1] == past + [WallCmd(b, vm, WarnUser, ShutdownWarning)];
  }

  // --- start and connect -------------------------------------------------

  /** The commands `StartAndConnect` issues before its second status reading: a reading, then `startvm` unless running. */
  function BeforeSecondReading(env: Host, b: string, past: seq<Cmd>, vm: string): (r: seq<Cmd>)
    ensures 1 <= |r| <= 2 && r[0] == InfoCmd(b, vm)
  {
    var first := StatusQuery(env, Some(b), past, vm).0;
    [InfoCmd(b, vm)] + (if first != Some(RunningState) then [StartCmd(b, vm, true)] else [])
  }

  /**
    `start_vm_and_open_a_terminal` in three parts: the commands before the
    second reading; the second reading; and, only when that reading is
    `running`, the terminal's commands. The result is 0 exactly then.
   */
  lemma StartAndConnectParts(env: Host, b: string, past: seq<Cmd>, vm: string, user: string)
    ensures var r := StartAndConnect(env, Some(b), past, vm, user);
            var before := BeforeSecondReading(env, b, past, vm);
            var checked := before + [InfoCmd(b, vm)];
            var again := StatusQuery(env, Some(b), past + before, vm).0;
            && |r.1| >= |checked| && r.1[..|checked|] == checked
            && (r.0 == 0 <==> again == Some(RunningState))
            && (r.0 == 1 ==> r.1 == checked)
            && (r.0 == 0 ==> r.1 == checked + TerminalRun(env, Some(b), past + checked, vm, user).1)
  {
    var binary := Some(b);
    var r := StartAndConnect(env, binary, past, vm, user);
    var first := StatusQuery(env, binary, past, vm);
    var start := if first.0 != Some(RunningState) then StartRun(env, binary, past + first.1, vm, true).1 else [];
    var before := first.1 + start;
    assert before == BeforeSecondReading(env, b, past, vm);
    var again := StatusQuery(env, binary, past + before, vm);
    var checked := before + again.1;
    assert checked == before + [InfoCmd(b, vm)];
    if r.0 == 0 {
      assert r.1 == checked + TerminalRun(env, binary, past + checked, vm, user).1;
      assert r.1[..|checked|] == checked;
    }
  }

  /**
    `start_vm_and_open_a_terminal`: the status is read first; `startvm`
    (headless) follows exactly when that status is not `running`; the status
    is read again; the result is 0 exactly when that second reading exits 0
    and reports `running`, and then the terminal's address lookup follows;
    with 1 nothing follows the second reading.
   */
  lemma StartAndConnectShape(env: Host, b: string, past: seq<Cmd>, vm: string, user: string)
    ensures var r := StartAndConnect(env, Some(b), past, vm, user);
            var first := StatusQuery(env, Some(b), past, vm).0;
            var k := if first == Some(RunningState) then 1 else 2;
            && |r.1| > k
            && r.1[0] == InfoCmd(b, vm)
            && (k == 2 ==> r.1[1] == StartCmd(b, vm, true))
            && r.1[k] == InfoCmd(b, vm)
            && (r.0 == 0 <==> OutcomeAt(env, past, r.1, k).Ok?
                              && StateOf(OutputLines(OutcomeAt(env, past, r.1, k).stdout)) == Some(RunningState))
            && (r.0 == 1 <==> |r.1| == k + 1)
            && (r.0 == 0 ==> r.1[k + 1] == IpCmd(b, vm))
  {
    StartAndConnectParts(env, b, past, vm, user);
    var r := StartAndConnect(env, Some(b), past, vm, user);
    var before := BeforeSecondReading(env, b, past, vm);
    var k := |before|;
    var checked := before + [InfoCmd(b, vm)];
    assert r.1[..k + 1] == checked;
    assert r.1[k] == checked[k];
    assert r.1[0] == checked[0];
    assert |before| == 2 ==> r.1[1] == checked[1];
    assert OutcomeAt(env, past, r.1, k) == env.run(past + before, InfoCmd(b, vm)) by {
      assert r.1[..k] == checked[..k] == before;
    }
    if r.0 == 0 {
      TerminalStartsWithLookup(env, b, past + checked, vm, user);
      assert r.1[k + 1] == TerminalRun(env, Some(b), past + checked, vm, user).1[0];
    }
  }

  lemma TerminalStartsWithLookup(env: Host, b: string, past: seq<Cmd>, vm: string, user: string)
    ensures var t := TerminalRun(env, Some(b), past, vm, user).1;
            |t| >= 1 && t[0] == IpCmd(b, vm)
  {
  }

  /** `startvm` is issued at most once, right after the first reading, and only when that reading is not `running`. */
  lemma StartOnlyWhenNotRunning(env: Host, b: string, past: seq<Cmd>, vm: string, user: string)
    ensures var r := StartAndConnect(env, Some(b), past, vm, user);
            forall i :: 0 <= i < |r.1| && IsStart(r.1[i]) ==>
              i == 1 && StatusQuery(env, Some(b), past, vm).0 != Some(RunningState)
  {
    StartAndConnectParts(env, b, past, vm, user);
    var r := StartAndConnect(env, Some(b), past, vm, user);
    var before := BeforeSecondReading(env, b, past, vm);
    var checked := before + [InfoCmd(b, vm)];
    var t := TerminalRun(env, Some(b), past + checked, vm, user).1;
    TerminalCommands(env, b, past + checked, vm, user);
    var tail := if r.0 == 0 then t else [];
    assert r.1 == checked + tail;
    OnlyStartAtOne(InfoCmd(b, vm), before, tail);
    assert |before| == 2 ==> StatusQuery(env, Some(b), past, vm).0 != Some(RunningState);
  }

  lemma OnlyStartAtOne(info: Cmd, before: seq<Cmd>, tail: seq<Cmd>)
    requires !IsStart(info) && 1 <= |before| <= 2 && before[0] == info
    requires forall i :: 0 <= i < |tail| ==> !IsStart(tail[i])
    ensures var s := before + [info] + tail;
            forall i :: 0 <= i < |s| && IsStart(s[i]) ==> i == 1 && |before| == 2
  {
  }

  /** The terminal's commands: the address lookup, then possibly `wt`; neither is a `startvm`. */
  lemma TerminalCommands(env: Host, b: string, past: seq<Cmd>, vm: string, user: string)
    ensures var t := TerminalRun(env, Some(b), past, vm, user).1;
            forall i :: 0 <= i < |t| ==> !IsStart(t[i])
  {
  }

  /** Whether the terminal could be launched does not change the result or the commands. */
  lemma StartAndConnectIgnoresTerminal(env: Host, launch: (seq<Cmd>, Cmd) -> bool, binary: Option<string>,
                                       past: seq<Cmd>, vm: string, user: string)
    ensures StartAndConnect(env.(launch := launch), binary, past, vm, user) == StartAndConnect(env, binary, past, vm, user)
  {
  }

  /** A VM already running is not started again and the terminal follows the second reading. */
  lemma AlreadyRunning(env: Host, b: string, past: seq<Cmd>, vm: string, user: string)
    requires StatusQuery(env, Some(b), past, vm).0 == Some(RunningState)
    requires StatusQuery(env, Some(b), past + [InfoCmd(b, vm)], vm).0 == Some(RunningState)
    ensures var r := StartAndConnect(env, Some(b), past, vm, user);
            r.0 == 0 && r.1[..2] == [InfoCmd(b, vm), InfoCmd(b, vm)]
  {
    StartAndConnectParts(env, b, past, vm, user);
    assert BeforeSecondReading(env, b, past, vm) == [InfoCmd(b, vm)];
  }
}
