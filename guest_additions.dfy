/**
  The attach saga of `VMManager.install_guest_additions`: check that the
  Guest Additions ISO exists beside the binary, read the VM's info to find
  its storage controller, try to put the ISO in the DVD drive on port "1",
  then on port "0", and when both refuse, attach an empty drive on port "1"
  and put the ISO in it. Each step is one VBoxManage command, and its
  outcome picks the next step.
 */
module GuestAdditions {
  import opened Wrappers
  import opened PyStr
  import opened Process
  import opened OutputParser

  const PortsToTry: seq<string> := ["1", "0"]
  const NewDrivePort := "1"

  /** How the port loop ended: a port took the ISO, every port refused, or a step did not complete. */
  datatype Mount = Mounted | Refused | Aborted

  /**
    The ISO attach on each port in turn, after `history`. A refusal (non-zero
    exit) moves to the next port; a timeout or a missing program is not caught
    by the loop and ends the saga.
   */
  function PortTries(env: Host, history: seq<Cmd>, binary: string, vm: string, ctl: string, iso: string,
                     ports: seq<string>): (r: (Mount, seq<Cmd>))
    ensures |r.1| <= |ports|
    ensures r.1 == [] <==> ports == []
    ensures ports != [] ==> r.1[0] == AttachCmd(binary, vm, ctl, ports[0], iso)
    ensures r.0 == Refused ==> |r.1| == |ports|
    ensures r.0 == Mounted ==> r.1 != [] && r.1[|r.1| - 1] == AttachCmd(binary, vm, ctl, ports[|r.1| - 1], iso)
    decreases |ports|
  {
    if ports == [] then (Refused, [])
    else
      var attach := AttachCmd(binary, vm, ctl, ports[0], iso);
      match env.run(history, attach)
      case Ok(_) => (Mounted, [attach])
      case Failed(_) =>
        var rest := PortTries(env, history + [attach], binary, vm, ctl, iso, ports[1..]);
        (rest.0, [attach] + rest.1)
      case TimedOut => (Aborted, [attach])
      case Missing => (Aborted, [attach])
  }

  /**
    What the port loop did when it ended with `m` after the commands `t`: one
    ISO attach per port, in the order given, each refused but the last, and
    the last one's outcome is how the loop ended.
   */
  predicate PortShape(env: Host, history: seq<Cmd>, binary: string, vm: string, ctl: string, iso: string,
                      ports: seq<string>, m: Mount, t: seq<Cmd>) {
    && |t| <= |ports|
    && (t == [] <==> ports == [])
    && (forall i :: 0 <= i < |t| ==> t[i] == AttachCmd(binary, vm, ctl, ports[i], iso))
    && (forall i :: 0 <= i < |t| - 1 ==> OutcomeAt(env, history, t, i).Failed?)
    && (t == [] ==> m == Refused)
    && (t != [] ==> LastAttachDecides(env, history, ports, m, t))
  }

  predicate LastAttachDecides(env: Host, history: seq<Cmd>, ports: seq<string>, m: Mount, t: seq<Cmd>)
    requires t != []
  {
    var o := OutcomeAt(env, history, t, |t| - 1);
    && (m == Mounted <==> o.Ok?)
    && (m == Refused <==> o.Failed?)
    && (o.Failed? ==> |t| == |ports|)
  }

  lemma PortShapeAfterRefusal(env: Host, history: seq<Cmd>, binary: string, vm: string, ctl: string, iso: string,
                              ports: seq<string>, m: Mount, t: seq<Cmd>)
    requires ports != []
    requires env.run(history, AttachCmd(binary, vm, ctl, ports[0], iso)).Failed?
    requires PortShape(env, history + [AttachCmd(binary, vm, ctl, ports[0], iso)], binary, vm, ctl, iso, ports[1..], m, t)
    ensures PortShape(env, history, binary, vm, ctl, iso, ports, m, [AttachCmd(binary, vm, ctl, ports[0], iso)] + t)
  {
    var a := AttachCmd(binary, vm, ctl, ports[0], iso);
    var h := history + [a];
    var t' := [a] + t;
    forall i | 1 <= i < |t'|
      ensures OutcomeAt(env, history, t', i) == OutcomeAt(env, h, t, i - 1)
    {
      assert history + t'[..i] == h + t[..i - 1];
    }
    assert OutcomeAt(env, history, t', 0) == env.run(history, a) by {
      assert history + t'[..0] == history;
    }
    if t != [] {
      assert LastAttachDecides(env, h, ports[1..], m, t);
    }
  }

  /** The port loop has the shape above. */
  lemma {:induction false} PortTriesSpec(env: Host, history: seq<Cmd>, binary: string, vm: string, ctl: string,
                                         iso: string, ports: seq<string>)
    ensures var r := PortTries(env, history, binary, vm, ctl, iso, ports);
            PortShape(env, history, binary, vm, ctl, iso, ports, r.0, r.1)
    decreases |ports|
  {
    if ports != [] {
      var a := AttachCmd(binary, vm, ctl, ports[0], iso);
      if env.run(history, a).Failed? {
        PortTriesSpec(env, history + [a], binary, vm, ctl, iso, ports[1..]);
        var rest := PortTries(env, history + [a], binary, vm, ctl, iso, ports[1..]);
        PortShapeAfterRefusal(env, history, binary, vm, ctl, iso, ports, rest.0, rest.1);
      } else {
        assert OutcomeAt(env, history, [a], 0) == env.run(history, a) by {
          assert history + [a][..0] == history;
        }
      }
    }
  }

  /**
    The whole saga for the binary `binary`: whether the ISO ended up in a
    drive, and the commands issued. A missing ISO fails before any command;
    an info query that does not exit 0, or a first controller line without
    `=`, fails after it.
   */
  function Saga(env: Host, past: seq<Cmd>, binary: string, vm: string): (r: (bool, seq<Cmd>))
    ensures r.1 == [] <==> !env.fileExists(env.isoBeside(binary))
    ensures r.1 == [] ==> !r.0
    ensures r.1 != [] ==> r.1[0] == InfoCmd(binary, vm)
  {
    var iso := env.isoBeside(binary);
    if !env.fileExists(iso) then (false, [])
    else
      var info := InfoCmd(binary, vm);
      match env.run(past, info)
      case Ok(out) =>
        var scan := ScanControllers(SplitOn(out, "\n"));
        if scan.NoValue? then (false, [info])
        else
          var attach := AttachPhase(env, past + [info], binary, vm, ControllerName(scan), iso);
          (attach.0, [info] + attach.1)
      case _ => (false, [info])
  }

  /** The port loop, then the new drive if every port refused. */
  function AttachPhase(env: Host, history: seq<Cmd>, binary: string, vm: string, ctl: string, iso: string): (r: (bool, seq<Cmd>))
    ensures 1 <= |r.1| <= 4
    ensures r.1[0] == AttachCmd(binary, vm, ctl, "1", iso)
    ensures r.0 ==> r.1[|r.1| - 1] == AttachCmd(binary, vm, ctl, "1", iso)
                    || r.1[|r.1| - 1] == AttachCmd(binary, vm, ctl, "0", iso)
  {
    var ports := PortTries(env, history, binary, vm, ctl, iso, PortsToTry);
    if ports.0 == Refused then
      var drive := NewDrive(env, history + ports.1, binary, vm, ctl, iso);
      (drive.0, ports.1 + drive.1)
    else (ports.0 == Mounted, ports.1)
  }

  /** Attach an empty drive on port "1", then, if that worked, the ISO in it. */
  function NewDrive(env: Host, history: seq<Cmd>, binary: string, vm: string, ctl: string, iso: string): (r: (bool, seq<Cmd>))
    ensures 1 <= |r.1| <= 2 && r.1[0] == AttachCmd(binary, vm, ctl, NewDrivePort, EmptyDrive)
    ensures r.0 ==> r.1 == [AttachCmd(binary, vm, ctl, NewDrivePort, EmptyDrive), AttachCmd(binary, vm, ctl, NewDrivePort, iso)]
  {
    var drive := AttachCmd(binary, vm, ctl, NewDrivePort, EmptyDrive);
    var attach := AttachCmd(binary, vm, ctl, NewDrivePort, iso);
    if env.run(history, drive).Ok? then (env.run(history + [drive], attach).Ok?, [drive, attach])
    else (false, [drive])
  }

  // ---------------------------------------------------------------------
  // The attach steps as an ordered list
  // ---------------------------------------------------------------------

  /**
    The attach steps written out, each outcome choosing the next: the ISO on
    port "1"; if refused, the ISO on port "0"; if refused, an empty drive on
    port "1"; if that worked, the ISO on port "1". The success of an ISO
    attach ends with true; any other outcome that does not lead on ends with
    false.
   */
  function AttachSteps(env: Host, h: seq<Cmd>, binary: string, vm: string, ctl: string, iso: string): (r: (bool, seq<Cmd>))
    ensures 1 <= |r.1| <= 4 && r.1[0] == AttachCmd(binary, vm, ctl, "1", iso)
    ensures r.0 ==> r.1[|r.1| - 1] == AttachCmd(binary, vm, ctl, "1", iso)
                    || r.1[|r.1| - 1] == AttachCmd(binary, vm, ctl, "0", iso)
  {
    var a1, a0 := AttachCmd(binary, vm, ctl, "1", iso), AttachCmd(binary, vm, ctl, "0", iso);
    var drive := AttachCmd(binary, vm, ctl, "1", EmptyDrive);
    var o1 := env.run(h, a1);
    if !o1.Failed? then (o1.Ok?, [a1])
    else
      var o0 := env.run(h + [a1], a0);
      if !o0.Failed? then (o0.Ok?, [a1, a0])
      else if !env.run(h + [a1, a0], drive).Ok? then (false, [a1, a0, drive])
      else (env.run(h + [a1, a0, drive], a1).Ok?, [a1, a0, drive, a1])
  }

  /** With both ports refusing, the port loop reports the refusal after two attaches. */
  lemma BothPortsRefused(env: Host, h: seq<Cmd>, binary: string, vm: string, ctl: string, iso: string)
    requires env.run(h, AttachCmd(binary, vm, ctl, "1", iso)).Failed?
    requires env.run(h + [AttachCmd(binary, vm, ctl, "1", iso)], AttachCmd(binary, vm, ctl, "0", iso)).Failed?
    ensures PortTries(env, h, binary, vm, ctl, iso, PortsToTry)
            == (Refused, [AttachCmd(binary, vm, ctl, "1", iso), AttachCmd(binary, vm, ctl, "0", iso)])
  {
    var a1, a0 := AttachCmd(binary, vm, ctl, "1", iso), AttachCmd(binary, vm, ctl, "0", iso);
    assert PortsToTry[0] == "1" && PortsToTry[1..] == ["0"];
    LastPortRefused(env, h + [a1], binary, vm, ctl, iso, "0");
    assert PortTries(env, h, binary, vm, ctl, iso, PortsToTry) == (Refused, [a1] + [a0]);
    assert [a1] + [a0] == [a1, a0];
  }

  lemma LastPortRefused(env: Host, h: seq<Cmd>, binary: string, vm: string, ctl: string, iso: string, port: string)
    requires env.run(h, AttachCmd(binary, vm, ctl, port, iso)).Failed?
    ensures PortTries(env, h, binary, vm, ctl, iso, [port]) == (Refused, [AttachCmd(binary, vm, ctl, port, iso)])
  {
    var ports := [port];
    var a := AttachCmd(binary, vm, ctl, port, iso);
    assert ports[0] == port && ports[1..] == [];
    var rest := PortTries(env, h + [a], binary, vm, ctl, iso, ports[1..]);
    assert rest == (Refused, []);
    assert PortTries(env, h, binary, vm, ctl, iso, ports) == (rest.0, [a] + rest.1);
    assert [a] + rest.1 == [a];
    assert PortTries(env, h, binary, vm, ctl, iso, ports) == (Refused, [a]);
  }

  /** The port loop and its fallback take exactly the steps above. */
  lemma AttachPhaseTakesSteps(env: Host, h: seq<Cmd>, binary: string, vm: string, ctl: string, iso: string)
    ensures AttachPhase(env, h, binary, vm, ctl, iso) == AttachSteps(env, h, binary, vm, ctl, iso)
  {
    var a1, a0 := AttachCmd(binary, vm, ctl, "1", iso), AttachCmd(binary, vm, ctl, "0", iso);
    assert PortsToTry[0] == "1" && PortsToTry[1..] == ["0"];
    if env.run(h, a1).Failed? {
      if env.run(h + [a1], a0).Failed? {
        BothPortsRefused(env, h, binary, vm, ctl, iso);
        var drive := AttachCmd(binary, vm, ctl, "1", EmptyDrive);
        assert h + [a1, a0] + [drive] == h + [a1, a0, drive];
        var nd := NewDrive(env, h + [a1, a0], binary, vm, ctl, iso);
        assert AttachPhase(env, h, binary, vm, ctl, iso) == (nd.0, [a1, a0] + nd.1);
        assert [a1, a0] + [drive] == [a1, a0, drive];
        assert [a1, a0] + [drive, a1] == [a1, a0, drive, a1];
      } else {
        var q := PortTries(env, h + [a1], binary, vm, ctl, iso, ["0"]);
        assert ["0"][0] == "0";
        assert PortTries(env, h, binary, vm, ctl, iso, PortsToTry) == (q.0, [a1] + q.1);
        assert q.1 == [a0];
        assert [a1] + [a0] == [a1, a0];
      }
    }
  }

  /** The saga gets past the info query to the attach steps. */
  predicate ReachesAttach(env: Host, past: seq<Cmd>, binary: string, vm: string) {
    && env.fileExists(env.isoBeside(binary))
    && env.run(past, InfoCmd(binary, vm)).Ok?
    && !ScanControllers(SplitOn(env.run(past, InfoCmd(binary, vm)).stdout, "\n")).NoValue?
  }

  /** The controller the attach steps name. */
  function Controller(env: Host, past: seq<Cmd>, binary: string, vm: string): string
    requires ReachesAttach(env, past, binary, vm)
  {
    ControllerName(ScanControllers(SplitOn(env.run(past, InfoCmd(binary, vm)).stdout, "\n")))
  }

  /** Past the info query, the saga is the info query followed by the attach steps. */
  lemma SagaAttachSteps(env: Host, past: seq<Cmd>, binary: string, vm: string)
    requires ReachesAttach(env, past, binary, vm)
    ensures var steps := AttachSteps(env, past + [InfoCmd(binary, vm)], binary, vm,
                                     Controller(env, past, binary, vm), env.isoBeside(binary));
            Saga(env, past, binary, vm) == (steps.0, [InfoCmd(binary, vm)] + steps.1)
  {
    AttachPhaseTakesSteps(env, past + [InfoCmd(binary, vm)], binary, vm,
                          Controller(env, past, binary, vm), env.isoBeside(binary));
  }

  /** Short of the attach steps, the saga fails, after the info query if the ISO exists. */
  lemma SagaShortOfAttach(env: Host, past: seq<Cmd>, binary: string, vm: string)
    requires !ReachesAttach(env, past, binary, vm)
    ensures Saga(env, past, binary, vm) ==
            (false, if env.fileExists(env.isoBeside(binary)) then [InfoCmd(binary, vm)] else [])
  {
  }

  // ---------------------------------------------------------------------
  // What the saga promises
  // ---------------------------------------------------------------------

  /** A `storageattach` that puts `medium` in a DVD drive. */
  predicate AttachOf(c: Cmd, medium: string) {
    |c| == 13 && c[1] == "storageattach" && c[12] == medium
  }

  /** A step that did not complete: the timeout expired or the program was not found. */
  predicate Interrupted(o: Outcome) {
    o.TimedOut? || o.Missing?
  }

  /** The commands of the attach steps, in the order they can be issued. */
  function AttachPlan(binary: string, vm: string, ctl: string, iso: string): seq<Cmd> {
    [AttachCmd(binary, vm, ctl, "1", iso), AttachCmd(binary, vm, ctl, "0", iso),
     AttachCmd(binary, vm, ctl, "1", EmptyDrive), AttachCmd(binary, vm, ctl, "1", iso)]
  }

  /** Every command the saga can issue once the ISO is found, in the order it issues them. */
  function Planned(binary: string, vm: string, ctl: string, iso: string): (p: seq<Cmd>)
    ensures |p| == 5
    ensures |p[0]| == 4
    ensures AttachOf(p[1], iso) && p[1][6] == "1"
    ensures AttachOf(p[2], iso) && p[2][6] == "0"
    ensures AttachOf(p[3], EmptyDrive) && p[3][6] == "1"
    ensures AttachOf(p[4], iso) && p[4][6] == "1"
  {
    [InfoCmd(binary, vm)] + AttachPlan(binary, vm, ctl, iso)
  }

  /**
    A run of the attach steps that issued a prefix of `plan`: it went past
    the two ISO attaches only on refusal and past the empty drive only on
    success, it stopped at the first outcome that does not lead on, and it
    succeeded exactly when its last command was an ISO attach that exited 0.
   */
  predicate StepsFollow(env: Host, h: seq<Cmd>, plan: seq<Cmd>, r: (bool, seq<Cmd>))
    requires |plan| == 4
  {
    && 1 <= |r.1| <= 4 && r.1 == plan[..|r.1|]
    && (forall k :: 0 <= k < |r.1| - 1 ==>
          if k < 2 then OutcomeAt(env, h, r.1, k).Failed? else OutcomeAt(env, h, r.1, k).Ok?)
    && (|r.1| <= 2 ==> !OutcomeAt(env, h, r.1, |r.1| - 1).Failed?)
    && (|r.1| == 3 ==> !OutcomeAt(env, h, r.1, |r.1| - 1).Ok?)
    && (r.0 <==> |r.1| != 3 && OutcomeAt(env, h, r.1, |r.1| - 1).Ok?)
  }

  lemma AttachStepsShape(env: Host, h: seq<Cmd>, binary: string, vm: string, ctl: string, iso: string)
    ensures StepsFollow(env, h, AttachPlan(binary, vm, ctl, iso), AttachSteps(env, h, binary, vm, ctl, iso))
  {
    var a1, a0 := AttachCmd(binary, vm, ctl, "1", iso), AttachCmd(binary, vm, ctl, "0", iso);
    var drive := AttachCmd(binary, vm, ctl, "1", EmptyDrive);
    var t := AttachSteps(env, h, binary, vm, ctl, iso).1;
    assert h + t[..0] == h;
    if |t| > 1 {
      assert h + t[..1] == h + [a1];
    }
    if |t| > 2 {
      assert h + t[..2] == h + [a1, a0];
    }
    if |t| > 3 {
      assert h + t[..3] == h + [a1, a0, drive];
    }
  }

  /** The same run seen from the whole saga: the info query first, at index 0. */
  predicate FollowsPlan(env: Host, past: seq<Cmd>, plan: seq<Cmd>, r: (bool, seq<Cmd>))
    requires |plan| == 5
  {
    && 2 <= |r.1| <= 5 && r.1 == plan[..|r.1|]
    && OutcomeAt(env, past, r.1, 0).Ok?
    && (forall k :: 1 <= k < |r.1| - 1 ==>
          if k < 3 then OutcomeAt(env, past, r.1, k).Failed? else OutcomeAt(env, past, r.1, k).Ok?)
    && (|r.1| <= 3 ==> !OutcomeAt(env, past, r.1, |r.1| - 1).Failed?)
    && (|r.1| == 4 ==> !OutcomeAt(env, past, r.1, |r.1| - 1).Ok?)
    && (r.0 <==> |r.1| != 4 && OutcomeAt(env, past, r.1, |r.1| - 1).Ok?)
  }

  lemma ShiftPlan(env: Host, past: seq<Cmd>, info: Cmd, plan: seq<Cmd>, steps: (bool, seq<Cmd>))
    requires |plan| == 4
    requires env.run(past, info).Ok?
    requires StepsFollow(env, past + [info], plan, steps)
    ensures FollowsPlan(env, past, [info] + plan, (steps.0, [info] + steps.1))
  {
    var h := past + [info];
    var t := [info] + steps.1;
    forall k | 0 <= k < |steps.1|
      ensures OutcomeAt(env, past, t, k + 1) == OutcomeAt(env, h, steps.1, k)
    {
      OutcomeAfter(env, past, info, steps.1, k);
    }
    assert past + t[..0] == past;
    assert ([info] + plan)[..|t|] == t;
    forall k | 1 <= k < |t| - 1
      ensures if k < 3 then OutcomeAt(env, past, t, k).Failed? else OutcomeAt(env, past, t, k).Ok?
    {
      assert OutcomeAt(env, past, t, k) == OutcomeAt(env, h, steps.1, k - 1);
    }
    assert OutcomeAt(env, past, t, |t| - 1) == OutcomeAt(env, h, steps.1, |steps.1| - 1);
  }

  /** Past the info query, the saga follows the plan for its controller and ISO. */
  lemma SagaShape(env: Host, past: seq<Cmd>, binary: string, vm: string)
    requires ReachesAttach(env, past, binary, vm)
    ensures FollowsPlan(env, past, Planned(binary, vm, Controller(env, past, binary, vm), env.isoBeside(binary)),
                        Saga(env, past, binary, vm))
  {
    var iso, ctl := env.isoBeside(binary), Controller(env, past, binary, vm);
    var info := InfoCmd(binary, vm);
    SagaAttachSteps(env, past, binary, vm);
    AttachStepsShape(env, past + [info], binary, vm, ctl, iso);
    ShiftPlan(env, past, info, AttachPlan(binary, vm, ctl, iso), AttachSteps(env, past + [info], binary, vm, ctl, iso));
  }

  lemma PlanSucceedsIffIsoAttached(env: Host, past: seq<Cmd>, binary: string, vm: string, ctl: string, iso: string,
                                   r: (bool, seq<Cmd>))
    requires iso != EmptyDrive
    requires FollowsPlan(env, past, Planned(binary, vm, ctl, iso), r)
    ensures r.0 <==> exists k :: 0 <= k < |r.1| && AttachOf(r.1[k], iso) && OutcomeAt(env, past, r.1, k).Ok?
    ensures forall k :: 0 <= k < |r.1| && AttachOf(r.1[k], iso) && OutcomeAt(env, past, r.1, k).Ok? ==> k == |r.1| - 1
  {
    var full := Planned(binary, vm, ctl, iso);
    var last := |r.1| - 1;
    forall k | 0 <= k < last && AttachOf(r.1[k], iso)
      ensures !OutcomeAt(env, past, r.1, k).Ok?
    {
      assert r.1[k] == full[k];
      assert k != 0 && k != 3;
    }
    assert r.1[last] == full[last];
    if AttachOf(r.1[last], iso) {
      assert last != 3;
    }
  }

  /**
    The saga succeeds exactly when one of its ISO attaches exited 0, and
    nothing is issued after that attach.
   */
  lemma SagaSucceedsIffIsoAttached(env: Host, past: seq<Cmd>, binary: string, vm: string)
    requires env.isoBeside(binary) != EmptyDrive
    ensures var r, iso := Saga(env, past, binary, vm), env.isoBeside(binary);
            && (r.0 <==> exists k :: 0 <= k < |r.1| && AttachOf(r.1[k], iso) && OutcomeAt(env, past, r.1, k).Ok?)
            && (forall k :: 0 <= k < |r.1| && AttachOf(r.1[k], iso) && OutcomeAt(env, past, r.1, k).Ok? ==> k == |r.1| - 1)
  {
    var r := Saga(env, past, binary, vm);
    if ReachesAttach(env, past, binary, vm) {
      SagaShape(env, past, binary, vm);
      PlanSucceedsIffIsoAttached(env, past, binary, vm, Controller(env, past, binary, vm), env.isoBeside(binary), r);
    } else {
      SagaShortOfAttach(env, past, binary, vm);
      if r.1 != [] {
        assert |r.1[0]| == 4;
      }
    }
  }

  /** A step that times out or whose program is missing is the saga's last, and the saga fails. */
  lemma SagaInterruptionFails(env: Host, past: seq<Cmd>, binary: string, vm: string)
    ensures var r := Saga(env, past, binary, vm);
            forall k :: 0 <= k < |r.1| && Interrupted(OutcomeAt(env, past, r.1, k)) ==> k == |r.1| - 1 && !r.0
  {
    if ReachesAttach(env, past, binary, vm) {
      SagaShape(env, past, binary, vm);
    } else {
      SagaShortOfAttach(env, past, binary, vm);
    }
  }

  lemma PlanEmptyDrive(env: Host, past: seq<Cmd>, binary: string, vm: string, ctl: string, iso: string,
                       r: (bool, seq<Cmd>), k: nat)
    requires iso != EmptyDrive
    requires FollowsPlan(env, past, Planned(binary, vm, ctl, iso), r)
    requires k < |r.1| && AttachOf(r.1[k], EmptyDrive)
    ensures k == 3
    ensures AttachOf(r.1[1], iso) && r.1[1][6] == "1" && OutcomeAt(env, past, r.1, 1).Failed?
    ensures AttachOf(r.1[2], iso) && r.1[2][6] == "0" && OutcomeAt(env, past, r.1, 2).Failed?
    ensures r.1[3][6] == "1"
    ensures OutcomeAt(env, past, r.1, 3).Ok? ==> |r.1| == 5 && AttachOf(r.1[4], iso) && r.1[4][6] == "1"
  {
    var full := Planned(binary, vm, ctl, iso);
    assert r.1[k] == full[k];
    assert r.1[1] == full[1] && r.1[2] == full[2] && r.1[3] == full[3];
    if |r.1| == 5 {
      assert r.1[4] == full[4];
    }
  }

  /**
    An empty drive is attached only as the fourth command, after the ISO was
    refused on port "1" and then on port "0"; when it works, the ISO attach
    on port "1" follows and is the last command.
   */
  lemma EmptyDriveOnlyAfterBothPortsRefused(env: Host, past: seq<Cmd>, binary: string, vm: string)
    requires env.isoBeside(binary) != EmptyDrive
    ensures var r, iso := Saga(env, past, binary, vm), env.isoBeside(binary);
            forall k :: 0 <= k < |r.1| && AttachOf(r.1[k], EmptyDrive) ==>
              && k == 3
              && AttachOf(r.1[1], iso) && r.1[1][6] == "1" && OutcomeAt(env, past, r.1, 1).Failed?
              && AttachOf(r.1[2], iso) && r.1[2][6] == "0" && OutcomeAt(env, past, r.1, 2).Failed?
              && r.1[3][6] == "1"
              && (OutcomeAt(env, past, r.1, 3).Ok? ==> |r.1| == 5 && AttachOf(r.1[4], iso) && r.1[4][6] == "1")
  {
    var r, iso := Saga(env, past, binary, vm), env.isoBeside(binary);
    if ReachesAttach(env, past, binary, vm) {
      SagaShape(env, past, binary, vm);
      forall k | 0 <= k < |r.1| && AttachOf(r.1[k], EmptyDrive)
        ensures k == 3
        ensures AttachOf(r.1[1], iso) && r.1[1][6] == "1" && OutcomeAt(env, past, r.1, 1).Failed?
        ensures AttachOf(r.1[2], iso) && r.1[2][6] == "0" && OutcomeAt(env, past, r.1, 2).Failed?
        ensures r.1[3][6] == "1"
        ensures OutcomeAt(env, past, r.1, 3).Ok? ==> |r.1| == 5 && AttachOf(r.1[4], iso) && r.1[4][6] == "1"
      {
        PlanEmptyDrive(env, past, binary, vm, Controller(env, past, binary, vm), iso, r, k);
      }
    } else {
      SagaShortOfAttach(env, past, binary, vm);
      if r.1 != [] {
        assert |r.1[0]| == 4;
      }
    }
  }

  /** Port "1" refusing and port "0" taking the ISO is success after three commands, with no new drive. */
  lemma SecondPortTakesIso(env: Host, past: seq<Cmd>, binary: string, vm: string)
    requires ReachesAttach(env, past, binary, vm)
    requires var h, ctl, iso := past + [InfoCmd(binary, vm)], Controller(env, past, binary, vm), env.isoBeside(binary);
             && env.run(h, AttachCmd(binary, vm, ctl, "1", iso)).Failed?
             && env.run(h + [AttachCmd(binary, vm, ctl, "1", iso)], AttachCmd(binary, vm, ctl, "0", iso)).Ok?
    ensures var ctl, iso := Controller(env, past, binary, vm), env.isoBeside(binary);
            Saga(env, past, binary, vm)
            == (true, [InfoCmd(binary, vm), AttachCmd(binary, vm, ctl, "1", iso), AttachCmd(binary, vm, ctl, "0", iso)])
  {
    SagaAttachSteps(env, past, binary, vm);
    var ctl, iso := Controller(env, past, binary, vm), env.isoBeside(binary);
    var a1, a0 := AttachCmd(binary, vm, ctl, "1", iso), AttachCmd(binary, vm, ctl, "0", iso);
    assert [InfoCmd(binary, vm)] + [a1, a0] == [InfoCmd(binary, vm), a1, a0];
  }

  /** Both ports refusing leads to the empty-drive attach before any verdict. */
  lemma BothPortsRefusedTriesNewDrive(env: Host, past: seq<Cmd>, binary: string, vm: string)
    requires ReachesAttach(env, past, binary, vm)
    requires var h, ctl, iso := past + [InfoCmd(binary, vm)], Controller(env, past, binary, vm), env.isoBeside(binary);
             && env.run(h, AttachCmd(binary, vm, ctl, "1", iso)).Failed?
             && env.run(h + [AttachCmd(binary, vm, ctl, "1", iso)], AttachCmd(binary, vm, ctl, "0", iso)).Failed?
    ensures var r := Saga(env, past, binary, vm);
            |r.1| >= 4 && r.1[3] == AttachCmd(binary, vm, Controller(env, past, binary, vm), "1", EmptyDrive)
  {
    SagaAttachSteps(env, past, binary, vm);
  }
}
