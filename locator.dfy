/**
  The search for the VBoxManage executable (`VMManager.find_vboxmanage`).
  The candidates are, in order: the fixed Windows installation path, the bare
  name `VBoxManage` resolved through PATH, and the list of common
  installation paths (which starts with the fixed Windows path again). A file
  candidate that does not exist is skipped without a probe; every other
  candidate is probed with `--version`, and the probe's outcome decides
  whether the search accepts it, moves on, or gives up.
 */
module Locator {
  import opened Wrappers
  import opened Process

  datatype Candidate = InstallPath(path: string) | OnSearchPath(name: string)

  function Name(c: Candidate): string {
    match c
    case InstallPath(p) => p
    case OnSearchPath(n) => n
  }

  const WellKnownPath := @"C:\Program Files\Oracle\VirtualBox\VBoxManage.exe"
  const SearchPathName := "VBoxManage"
  const CommonPaths: seq<string> := [
    @"C:\Program Files\Oracle\VirtualBox\VBoxManage.exe",
    @"C:\Program Files (x86)\Oracle\VirtualBox\VBoxManage.exe",
    "/usr/bin/VBoxManage",
    "/usr/local/bin/VBoxManage",
    "/Applications/VirtualBox.app/Contents/MacOS/VBoxManage"
  ]

  function CommonCandidates(): seq<Candidate> {
    seq(|CommonPaths|, i requires 0 <= i < |CommonPaths| => InstallPath(CommonPaths[i]))
  }

  function Candidates(): seq<Candidate> {
    [InstallPath(WellKnownPath), OnSearchPath(SearchPathName)] + CommonCandidates()
  }

  /** Where a candidate's probe leads the search. */
  datatype Verdict = Accept | Next | Abort

  /**
    A probe that exits 0 is accepted and a non-zero exit moves on. A timeout
    moves on for a file path but is not caught for the PATH name, so the
    whole search gives up; not finding the program moves on for the PATH name
    but is not caught for a file path, so the whole search gives up.
   */
  function Judge(c: Candidate, o: Outcome): (v: Verdict)
    ensures v == Accept <==> o.Ok?
    ensures o.Failed? ==> v == Next
    ensures v == Abort ==> o.TimedOut? || o.Missing?
    ensures o.TimedOut? ==> (v == Abort <==> c.OnSearchPath?)
    ensures o.Missing? ==> (v == Abort <==> c.InstallPath?)
  {
    match o
    case Ok(_) => Accept
    case Failed(_) => Next
    case TimedOut => if c.OnSearchPath? then Abort else Next
    case Missing => if c.OnSearchPath? then Next else Abort
  }

  /** A candidate is probed unless it is a file path that does not exist. */
  predicate Probed(env: Host, c: Candidate) {
    c.OnSearchPath? || env.fileExists(c.path)
  }

  /** The candidates that get a probe, in order. */
  function ProbedCands(env: Host, cands: seq<Candidate>): (r: seq<Candidate>)
    ensures |r| <= |cands|
    ensures forall c :: c in r ==> c in cands && Probed(env, c)
    ensures forall c :: c in cands && Probed(env, c) ==> c in r
  {
    if cands == [] then []
    else (if Probed(env, cands[0]) then [cands[0]] else []) + ProbedCands(env, cands[1..])
  }

  lemma {:induction false} ProbedCandsAppend(env: Host, a: seq<Candidate>, b: seq<Candidate>)
    ensures ProbedCands(env, a + b) == ProbedCands(env, a) + ProbedCands(env, b)
  {
    if a == [] {
      assert a + b == b;
    } else {
      var head := if Probed(env, a[0]) then [a[0]] else [];
      assert (a + b)[0] == a[0];
      assert (a + b)[1..] == a[1..] + b;
      assert ProbedCands(env, a + b) == head + ProbedCands(env, a[1..] + b);
      assert ProbedCands(env, a) == head + ProbedCands(env, a[1..]);
      ProbedCandsAppend(env, a[1..], b);
      assert head + (ProbedCands(env, a[1..]) + ProbedCands(env, b))
             == (head + ProbedCands(env, a[1..])) + ProbedCands(env, b);
    }
  }

  /** The search over `cands` after `history`: the path found, and the probes issued. */
  function Search(env: Host, history: seq<Cmd>, cands: seq<Candidate>): (r: (Option<string>, seq<Cmd>))
    ensures |r.1| <= |cands|
    ensures r.0.Some? ==> r.1 != [] && r.1[|r.1| - 1] == ProbeCmd(r.0.value)
    decreases |cands|
  {
    if cands == [] then (None, [])
    else if !Probed(env, cands[0]) then Search(env, history, cands[1..])
    else
      var probe := ProbeCmd(Name(cands[0]));
      match Judge(cands[0], env.run(history, probe))
      case Accept => (Some(Name(cands[0])), [probe])
      case Abort => (None, [probe])
      case Next =>
        var rest := Search(env, history + [probe], cands[1..]);
        (rest.0, [probe] + rest.1)
  }

  /**
    What a search over the probed candidates `pc` did when it returned `r`
    after the probes `t`: it probed the candidates in order, one probe each,
    and every probe but the last moved on. The last probe decides: the search
    found that candidate's name exactly when its probe was accepted, and when
    it moved on too the candidates were exhausted. With no probe there is no
    result.
   */
  predicate SearchShape(env: Host, history: seq<Cmd>, pc: seq<Candidate>, r: Option<string>, t: seq<Cmd>) {
    && |t| <= |pc|
    && (t == [] <==> pc == [])
    && (forall i :: 0 <= i < |t| ==> t[i] == ProbeCmd(Name(pc[i])))
    && (forall i :: 0 <= i < |t| - 1 ==> Judge(pc[i], OutcomeAt(env, history, t, i)) == Next)
    && (t == [] ==> r.None?)
    && (t != [] ==> LastProbeDecides(env, history, pc, r, t))
  }

  predicate LastProbeDecides(env: Host, history: seq<Cmd>, pc: seq<Candidate>, r: Option<string>, t: seq<Cmd>)
    requires 0 < |t| <= |pc|
  {
    var v := Judge(pc[|t| - 1], OutcomeAt(env, history, t, |t| - 1));
    && (r.Some? <==> v == Accept)
    && (r.Some? ==> r.value == Name(pc[|t| - 1]))
    && (v == Next ==> |t| == |pc|)
  }

  /** A probe that moved on, followed by a search of the rest, is a search of the whole. */
  lemma ShapeAfterNext(env: Host, history: seq<Cmd>, c: Candidate, pc: seq<Candidate>, r: Option<string>, t: seq<Cmd>)
    requires Judge(c, env.run(history, ProbeCmd(Name(c)))) == Next
    requires SearchShape(env, history + [ProbeCmd(Name(c))], pc, r, t)
    ensures SearchShape(env, history, [c] + pc, r, [ProbeCmd(Name(c))] + t)
  {
    var probe := ProbeCmd(Name(c));
    var h := history + [probe];
    var t' := [probe] + t;
    var pc' := [c] + pc;
    forall i | 1 <= i < |t'|
      ensures OutcomeAt(env, history, t', i) == OutcomeAt(env, h, t, i - 1)
    {
      assert history + t'[..i] == h + t[..i - 1];
    }
    assert OutcomeAt(env, history, t', 0) == env.run(history, probe) by {
      assert history + t'[..0] == history;
    }
    if t != [] {
      assert LastProbeDecides(env, h, pc, r, t);
      assert pc'[|t'| - 1] == pc[|t| - 1];
    }
  }

  /** A probe that is accepted or gives up ends the search with the shape above. */
  lemma ShapeAtStop(env: Host, history: seq<Cmd>, c: Candidate, pc: seq<Candidate>)
    requires Judge(c, env.run(history, ProbeCmd(Name(c)))) != Next
    ensures var v := Judge(c, env.run(history, ProbeCmd(Name(c))));
            SearchShape(env, history, [c] + pc, if v == Accept then Some(Name(c)) else None, [ProbeCmd(Name(c))])
  {
    var probe := ProbeCmd(Name(c));
    assert OutcomeAt(env, history, [probe], 0) == env.run(history, probe) by {
      assert history + [probe][..0] == history;
    }
  }

  /** The search has the shape above, over the probed candidates of its list. */
  lemma {:induction false} SearchSpec(env: Host, history: seq<Cmd>, cands: seq<Candidate>)
    ensures var s := Search(env, history, cands);
            SearchShape(env, history, ProbedCands(env, cands), s.0, s.1)
    decreases |cands|
  {
    if cands != [] {
      var c, tail := cands[0], cands[1..];
      var pcTail := ProbedCands(env, tail);
      if !Probed(env, c) {
        assert ProbedCands(env, cands) == pcTail;
        assert Search(env, history, cands) == Search(env, history, tail);
        SearchSpec(env, history, tail);
      } else {
        var probe := ProbeCmd(Name(c));
        assert ProbedCands(env, cands) == [c] + pcTail;
        if Judge(c, env.run(history, probe)) == Next {
          var rest := Search(env, history + [probe], tail);
          assert Search(env, history, cands) == (rest.0, [probe] + rest.1);
          SearchSpec(env, history + [probe], tail);
          ShapeAfterNext(env, history, c, pcTail, rest.0, rest.1);
        } else {
          ShapeAtStop(env, history, c, pcTail);
        }
      }
    }
  }

  /** The probed candidates of the full list: the fixed path if it exists, the PATH name, then the existing common paths. */
  lemma CandidateOrder(env: Host)
    ensures ProbedCands(env, Candidates()) ==
            (if env.fileExists(WellKnownPath) then [InstallPath(WellKnownPath)] else [])
            + [OnSearchPath(SearchPathName)] + ProbedCands(env, CommonCandidates())
  {
    var head := [InstallPath(WellKnownPath), OnSearchPath(SearchPathName)];
    ProbedCandsAppend(env, head, CommonCandidates());
    assert head[1..] == [OnSearchPath(SearchPathName)];
    assert ProbedCands(env, head[1..][1..]) == [];
  }

  /** Whatever a search finds is the name of one of its probed candidates. */
  lemma SearchFindsProbed(env: Host, history: seq<Cmd>, cands: seq<Candidate>)
    ensures var r := Search(env, history, cands).0;
            r.Some? ==> exists c :: c in cands && Probed(env, c) && Name(c) == r.value
  {
    SearchSpec(env, history, cands);
    var s := Search(env, history, cands);
    if s.0.Some? {
      var pc := ProbedCands(env, cands);
      assert LastProbeDecides(env, history, pc, s.0, s.1);
      assert pc[|s.1| - 1] in pc;
    }
  }

  lemma CandidateNamesNonEmpty()
    ensures forall d :: d in Candidates() ==> Name(d) != []
  {
    assert forall k :: 0 <= k < |CommonPaths| ==> CommonPaths[k] != [];
  }

  /** Whatever the search finds is one of the candidates' names, and no name is empty. */
  lemma SearchFindsCandidate(env: Host, history: seq<Cmd>)
    ensures var r := Search(env, history, Candidates()).0;
            r.Some? ==> r.value != [] && exists c :: c in Candidates() && Probed(env, c) && Name(c) == r.value
  {
    var cands := Candidates();
    SearchFindsProbed(env, history, cands);
    CandidateNamesNonEmpty();
  }

  /** An existing fixed path whose probe exits 0 is found by the first and only probe. */
  lemma WellKnownPathFirst(env: Host, history: seq<Cmd>)
    requires env.fileExists(WellKnownPath) && env.run(history, ProbeCmd(WellKnownPath)).Ok?
    ensures Search(env, history, Candidates()) == (Some(WellKnownPath), [ProbeCmd(WellKnownPath)])
  {
  }

  /**
    With the fixed path absent and the PATH probe exiting 0, the search
    returns the bare name after that single probe: no common path is probed.
   */
  lemma FoundOnSearchPath(env: Host, history: seq<Cmd>)
    requires !env.fileExists(WellKnownPath)
    requires env.run(history, ProbeCmd(SearchPathName)).Ok?
    ensures Search(env, history, Candidates()) == (Some(SearchPathName), [ProbeCmd(SearchPathName)])
  {
    var cands := Candidates();
    assert cands[1..][0] == OnSearchPath(SearchPathName);
  }

  /**
    A timed-out PATH probe ends the search with nothing found, whether the
    fixed path was absent or its probe moved on: no common path is probed.
   */
  lemma SearchPathTimeoutAborts(env: Host, history: seq<Cmd>)
    requires env.fileExists(WellKnownPath) ==>
               Judge(InstallPath(WellKnownPath), env.run(history, ProbeCmd(WellKnownPath))) == Next
    requires var before := if env.fileExists(WellKnownPath) then [ProbeCmd(WellKnownPath)] else [];
             env.run(history + before, ProbeCmd(SearchPathName)).TimedOut?
    ensures var before := if env.fileExists(WellKnownPath) then [ProbeCmd(WellKnownPath)] else [];
            Search(env, history, Candidates()) == (None, before + [ProbeCmd(SearchPathName)])
  {
    var cands := Candidates();
    assert cands[1..][0] == OnSearchPath(SearchPathName);
    if env.fileExists(WellKnownPath) {
      var probe := ProbeCmd(WellKnownPath);
      assert ProbeCmd(Name(cands[0])) == probe;
      assert Search(env, history + [probe], cands[1..]) == (None, [ProbeCmd(SearchPathName)]);
      assert [probe] + [ProbeCmd(SearchPathName)] == [probe, ProbeCmd(SearchPathName)];
    } else {
      assert Search(env, history, cands) == Search(env, history, cands[1..]);
      assert history + [] == history;
      assert [] + [ProbeCmd(SearchPathName)] == [ProbeCmd(SearchPathName)];
    }
  }

  /**
    An existing fixed path whose probe fails is probed again as the first
    common path, right after the PATH probe moved on.
   */
  lemma WellKnownPathProbedTwice(env: Host, history: seq<Cmd>)
    requires env.fileExists(WellKnownPath)
    requires Judge(InstallPath(WellKnownPath), env.run(history, ProbeCmd(WellKnownPath))) == Next
    requires Judge(OnSearchPath(SearchPathName),
                   env.run(history + [ProbeCmd(WellKnownPath)], ProbeCmd(SearchPathName))) == Next
    ensures var t := Search(env, history, Candidates()).1;
            |t| >= 3 && t[..3] == [ProbeCmd(WellKnownPath), ProbeCmd(SearchPathName), ProbeCmd(WellKnownPath)]
  {
    var cands := Candidates();
    var h1 := history + [ProbeCmd(WellKnownPath)];
    var h2 := h1 + [ProbeCmd(SearchPathName)];
    assert cands[1..][0] == OnSearchPath(SearchPathName);
    assert cands[1..][1..][0] == InstallPath(WellKnownPath);
    assert Search(env, h2, cands[1..][1..]).1 != [];
  }

  /** When every probed candidate moves on, nothing is found and every probed candidate was probed once. */
  lemma ExhaustedSearch(env: Host, history: seq<Cmd>, cands: seq<Candidate>)
    requires var s, pc := Search(env, history, cands), ProbedCands(env, cands);
             forall i :: 0 <= i < |s.1| && i < |pc| ==> Judge(pc[i], OutcomeAt(env, history, s.1, i)) == Next
    ensures var s := Search(env, history, cands);
            s.0.None? && |s.1| == |ProbedCands(env, cands)|
  {
    SearchSpec(env, history, cands);
  }
}
