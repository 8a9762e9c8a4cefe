/**
  The boundary to the outside world. Every `subprocess.run` of the source is
  one call of the host oracle on the command's argument list; what a command
  yields may depend on every command issued before it (a `startvm` changes
  what the next `showvminfo` reports), so the oracle is also given the
  history. The argument lists of every command the manager issues are built
  here.
 */
module Process {

  type Cmd = seq<string>

  /**
    What one bounded `subprocess.run` yields: exit status 0 with the captured
    standard output; a non-zero exit status with the captured standard error;
    the timeout expiring; or the program not being found on launch
    (`FileNotFoundError`).
   */
  datatype Outcome = Ok(stdout: string) | Failed(stderr: string) | TimedOut | Missing

  /**
    The host the manager runs on.
    - `run(history, cmd)`: the outcome of `cmd` after the commands in `history`.
    - `runWithInput(history, cmd, input)`: the same, with `input` fed on standard input.
    - `launch(history, cmd)`: whether `subprocess.Popen` could start `cmd`.
    - `fileExists(path)`: `os.path.exists(path)`.
    - `isoBeside(binary)`: the path of `VBoxGuestAdditions.iso` in the binary's directory.
   */
  datatype Host = Host(
    run: (seq<Cmd>, Cmd) -> Outcome,
    runWithInput: (seq<Cmd>, Cmd, string) -> Outcome,
    launch: (seq<Cmd>, Cmd) -> bool,
    fileExists: string -> bool,
    isoBeside: string -> string)

  /** The outcome of the `k`-th command of `trace`, issued after `history` and the commands before it. */
  function OutcomeAt(env: Host, history: seq<Cmd>, trace: seq<Cmd>, k: nat): Outcome
    requires k < |trace|
  {
    env.run(history + trace[..k], trace[k])
  }

  /** Prefixing a trace with one command shifts the outcomes of the rest by one place. */
  lemma OutcomeAfter(env: Host, history: seq<Cmd>, c: Cmd, rest: seq<Cmd>, k: nat)
    requires k < |rest|
    ensures OutcomeAt(env, history, [c] + rest, k + 1) == OutcomeAt(env, history + [c], rest, k)
  {
    assert history + ([c] + rest)[..k + 1] == history + [c] + rest[..k];
  }

  // Argument lists, one per kind of command.

  function ProbeCmd(binary: string): Cmd {
    [binary, "--version"]
  }

  function ListCmd(binary: string): Cmd {
    [binary, "list", "vms"]
  }

  function StartCmd(binary: string, vm: string, headless: bool): Cmd {
    [binary, "startvm", vm, "--type", if headless then "headless" else "gui"]
  }

  function ControlCmd(binary: string, vm: string, graceful: bool): Cmd {
    [binary, "controlvm", vm, if graceful then "acpipowerbutton" else "poweroff"]
  }

  const IpProperty := "/VirtualBox/GuestInfo/Net/0/V4/IP"

  function IpCmd(binary: string, vm: string): Cmd {
    [binary, "guestproperty", "get", vm, IpProperty]
  }

  function InfoCmd(binary: string, vm: string): Cmd {
    [binary, "showvminfo", vm, "--machinereadable"]
  }

  function AttachCmd(binary: string, vm: string, controller: string, port: string, medium: string): Cmd {
    [binary, "storageattach", vm, "--storagectl", controller, "--port", port,
     "--device", "0", "--type", "dvddrive", "--medium", medium]
  }

  const EmptyDrive := "emptydrive"

  function WallCmd(binary: string, vm: string, user: string, message: string): Cmd {
    [binary, "guestcontrol", vm, "--username", user, "run", "--exe", "/usr/bin/wall", "--", "wall", message]
  }

  function SshCmd(user: string, ip: string, message: string): Cmd {
    ["ssh", "-o", "StrictHostKeyChecking=no", "-o", "UserKnownHostsFile=/dev/null",
     user + "@" + ip, "echo '" + message + "' | wall"]
  }

  function TerminalCmd(vm: string, user: string, ip: string): Cmd {
    ["wt", "new-tab", "--title", "SSH-" + vm, "--", "ssh", user + "@" + ip]
  }
}
