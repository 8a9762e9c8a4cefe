/**
  The parsers the VMManager methods apply to VBoxManage's output: the VM
  names of `list vms`, the `VMState=` entry and the storage controller of
  `showvminfo --machinereadable`, and the address in the reply of
  `guestproperty get`. Each is a pure function of the captured text.
 */
module OutputParser {
  import opened Wrappers
  import opened PyStr

  /** `stdout.strip().split('\n')`: the lines the list and status parsers walk. */
  function OutputLines(stdout: string): (r: seq<string>)
    ensures |r| >= 1
  {
    SplitOn(Strip(stdout), "\n")
  }

  /** `line.split('=')[1].strip('"')`, or None where `split` has no second piece. */
  function FieldValue(line: string): (r: Option<string>)
    ensures r.Some? <==> Contains(line, "=")
    ensures r.Some? ==> !Contains(r.value, "=")
    ensures r.Some? ==>
              var rest := line[IndexOf(line, "=").value + 1..];
              r.value == StripQuotes(match IndexOf(rest, "=")
                                     case Some(j) => rest[..j]
                                     case None => rest)
  {
    if Contains(line, "=") then
      SecondPiece(line, "=");
      SplitOnPiecesAvoidSep(line, "=", 1);
      StripKeepsAbsence(SplitOn(line, "=")[1], "=");
      Some(StripQuotes(SplitOn(line, "=")[1]))
    else None
  }

  /** Stripping quotes cannot create an `=`. */
  lemma StripKeepsAbsence(s: string, sub: string)
    requires sub != [] && !Contains(s, sub)
    ensures !Contains(StripQuotes(s), sub)
  {
    StripWithKeepsAbsence(s, sub, IsQuote);
  }

  /** The index of the first line satisfying `p`, if any: where a `for ... break` over the lines stops. */
  function FirstWhere(lines: seq<string>, p: string -> bool): (r: Option<nat>)
    ensures r.None? <==> forall k :: 0 <= k < |lines| ==> !p(lines[k])
    ensures r.Some? ==> r.value < |lines| && p(lines[r.value]) && forall j :: 0 <= j < r.value ==> !p(lines[j])
  {
    if lines == [] then None
    else if p(lines[0]) then Some(0)
    else
      var rest := FirstWhere(lines[1..], p);
      assert forall k :: 1 <= k < |lines| ==> lines[k] == lines[1..][k - 1];
      if rest.None? then None else Some(rest.value + 1)
  }

  // ---------------------------------------------------------------------
  // `list vms` (vm_runner.py:152-158)
  // ---------------------------------------------------------------------

  /**
    What one line of `list vms` contributes: for a non-blank line holding a
    double quote, `line.split('"')[1]`; nothing otherwise.
   */
  function ListedName(line: string): (r: Option<string>)
    ensures r.Some? <==> Strip(line) != [] && Contains(line, "\"")
    ensures r.Some? ==> !Contains(r.value, "\"")
  {
    if Strip(line) != [] && Contains(line, "\"") then
      SplitOnPiecesAvoidSep(line, "\"", 1);
      Some(SplitOn(line, "\"")[1])
    else None
  }

  /**
    The name read from a line is the quote-free run that starts just after the
    line's first double quote and ends at the next one or at the end of the line.
   */
  lemma ListedNameBetweenQuotes(line: string)
    requires ListedName(line).Some?
    ensures var n := ListedName(line).value;
            var i := IndexOf(line, "\"").value;
            && !Contains(n, "\"")
            && i + 1 + |n| <= |line|
            && line[i + 1..i + 1 + |n|] == n
            && (i + 1 + |n| == |line| || line[i + 1 + |n|] == '"')
  {
    var i := IndexOf(line, "\"").value;
    var rest := line[i + 1..];
    SecondPiece(line, "\"");
    SplitOnPiecesAvoidSep(line, "\"", 1);
    var n := SplitOn(line, "\"")[1];
    var j := IndexOf(rest, "\"");
    if j.Some? {
      assert n == rest[..j.value];
      assert rest[j.value..j.value + 1] == "\"";
    } else {
      assert n == rest;
    }
  }

    /** What one line gives a scan with `pick`: its value, or nothing where `pick` reads none. */
  function Picked(pick: string -> Option<string>, line: string): seq<string> {
    if pick(line).Some? then [pick(line).value] else []
  }

  /** The values `pick` reads off the lines, in line order, skipping lines it reads nothing from. */
  function Gather(lines: seq<string>, pick: string -> Option<string>): (r: seq<string>)
    ensures |r| <= |lines|
  {
    if lines == [] then []
    else Gather(lines[..|lines| - 1], pick) + Picked(pick, lines[|lines| - 1])
  }

  /** Scanning one more line appends what that line gives. */
  lemma GatherSnoc(lines: seq<string>, i: nat, pick: string -> Option<string>)
    requires i < |lines|
    ensures Gather(lines[..i + 1], pick) == Gather(lines[..i], pick) + Picked(pick, lines[i])
  {
    assert lines[..i + 1][..i] == lines[..i];
  }

  lemma {:induction false} GatherAppend(a: seq<string>, b: seq<string>, pick: string -> Option<string>)
    ensures Gather(a + b, pick) == Gather(a, pick) + Gather(b, pick)
    decreases |b|
  {
    if b != [] {
      var b' := b[..|b| - 1];
      assert (a + b)[..|a + b| - 1] == a + b';
      assert (a + b)[|a + b| - 1] == b[|b| - 1];
      GatherAppend(a, b', pick);
    } else {
      assert a + b == a;
    }
  }

  lemma {:induction false} GatherOnePerLine(lines: seq<string>, pick: string -> Option<string>)
    requires forall k :: 0 <= k < |lines| ==> pick(lines[k]).Some?
    ensures |Gather(lines, pick)| == |lines|
    ensures forall k :: 0 <= k < |lines| ==> Gather(lines, pick)[k] == pick(lines[k]).value
  {
    if lines != [] {
      var init := lines[..|lines| - 1];
      assert forall k :: 0 <= k < |init| ==> init[k] == lines[k];
      GatherOnePerLine(init, pick);
    }
  }

  lemma {:induction false} GatherFromLines(lines: seq<string>, n: string, pick: string -> Option<string>)
    ensures n in Gather(lines, pick) <==> exists k :: 0 <= k < |lines| && pick(lines[k]) == Some(n)
  {
    if lines != [] {
      var init, last := lines[..|lines| - 1], lines[|lines| - 1];
      GatherFromLines(init, n, pick);
      assert Gather(lines, pick) == Gather(init, pick) + Picked(pick, last);
      assert n in Picked(pick, last) <==> pick(last) == Some(n);
      if exists k :: 0 <= k < |lines| && pick(lines[k]) == Some(n) {
        var k :| 0 <= k < |lines| && pick(lines[k]) == Some(n);
        if k < |init| {
          assert init[k] == lines[k];
        }
      }
      if exists k :: 0 <= k < |init| && pick(init[k]) == Some(n) {
        var k :| 0 <= k < |init| && pick(init[k]) == Some(n);
        assert lines[k] == init[k];
      }
    }
  }

  /** What one line of `list vms` contributes to the listing. */
  function Contribution(line: string): seq<string> {
    Picked(ListedName, line)
  }

  /** The names `list vms` reports, one per contributing line, in line order. */
  function VmNames(lines: seq<string>): (r: seq<string>)
    ensures |r| <= |lines|
  {
    Gather(lines, ListedName)
  }

  /** Reading one more line appends that line's contribution. */
  lemma VmNamesSnoc(lines: seq<string>, i: nat)
    requires i < |lines|
    ensures VmNames(lines[..i + 1]) == VmNames(lines[..i]) + Contribution(lines[i])
  {
    GatherSnoc(lines, i, ListedName);
  }

  /** The names of two blocks of lines are the names of the first block, then those of the second. */
  lemma VmNamesAppend(a: seq<string>, b: seq<string>)
    ensures VmNames(a + b) == VmNames(a) + VmNames(b)
  {
    GatherAppend(a, b, ListedName);
  }

  /** When every line names a VM, the result holds exactly those names, in line order. */
  lemma VmNamesOnePerLine(lines: seq<string>)
    requires forall k :: 0 <= k < |lines| ==> ListedName(lines[k]).Some?
    ensures |VmNames(lines)| == |lines|
    ensures forall k :: 0 <= k < |lines| ==> VmNames(lines)[k] == ListedName(lines[k]).value
  {
    GatherOnePerLine(lines, ListedName);
  }

  /** Every reported name comes from a line, and every contributing line is reported. */
  lemma VmNamesFromLines(lines: seq<string>, n: string)
    ensures n in VmNames(lines) <==> exists k :: 0 <= k < |lines| && ListedName(lines[k]) == Some(n)
  {
    GatherFromLines(lines, n, ListedName);
  }

  /** A line without a double quote, blank or not, contributes nothing. */
  lemma UnquotedLineIgnored(lines: seq<string>, line: string)
    requires !Contains(line, "\"")
    ensures VmNames(lines + [line]) == VmNames(lines)
  {
    assert (lines + [line])[..|lines|] == lines;
  }

  // ---------------------------------------------------------------------
  // `VMState=` in `showvminfo --machinereadable` (vm_runner.py:295-302)
  // ---------------------------------------------------------------------

  /** A line that starts with `VMState=`; it always holds the `=` its value follows. */
  predicate IsStateLine(line: string) {
    StartsWith(line, "VMState=")
  }

  lemma StateLineHasField(line: string)
    requires IsStateLine(line)
    ensures FieldValue(line).Some?
  {
    assert line[7..8] == "VMState="[7..8];
    assert OccursAt(line, "=", 7);
  }

  /**
    The VM state: the value of the first line that starts with `VMState=`,
    between its first and second `=` with the quotes stripped; None when no
    line starts with `VMState=`.
   */
  function StateOf(lines: seq<string>): (r: Option<string>)
    ensures r.Some? <==> exists k :: 0 <= k < |lines| && IsStateLine(lines[k])
    ensures r.Some? ==> exists k :: 0 <= k < |lines| && IsStateLine(lines[k])
                         && (forall j :: 0 <= j < k ==> !IsStateLine(lines[j]))
                         && FieldValue(lines[k]) == r
  {
    match FirstWhere(lines, IsStateLine)
    case None => None
    case Some(k) =>
      StateLineHasField(lines[k]);
      FieldValue(lines[k])
  }

  // ---------------------------------------------------------------------
  // storage controller in `showvminfo --machinereadable` (vm_runner.py:345-356)
  // ---------------------------------------------------------------------

  /** A line naming an IDE or SATA storage controller, compared in lower case. */
  predicate IsControllerLine(line: string) {
    var l := Lower(line);
    Contains(l, "storagecontrollername") && (Contains(l, "ide") || Contains(l, "sata"))
  }

  /** The controller test ignores case: a line and its lower-cased form are judged alike. */
  lemma ControllerLineIgnoresCase(line: string)
    ensures IsControllerLine(Lower(line)) == IsControllerLine(line)
  {
    LowerIdempotent(line);
  }

  /**
    The outcome of the controller search: the value of the first matching
    line, or no matching line, or a first matching line without `=`
    (where the source's `line.split('=')[1]` raises an IndexError).
   */
  datatype ControllerScan = Found(name: string) | NotFound | NoValue

  /** The first controller line decides the scan. */
  function ScanControllers(lines: seq<string>): (r: ControllerScan)
    ensures r.NotFound? <==> forall k :: 0 <= k < |lines| ==> !IsControllerLine(lines[k])
    ensures !r.NotFound? ==> exists k :: 0 <= k < |lines| && IsControllerLine(lines[k])
                              && (forall j :: 0 <= j < k ==> !IsControllerLine(lines[j]))
                              && r == (if FieldValue(lines[k]).Some? then Found(FieldValue(lines[k]).value) else NoValue)
  {
    match FirstWhere(lines, IsControllerLine)
    case None => NotFound
    case Some(k) => if FieldValue(lines[k]).Some? then Found(FieldValue(lines[k]).value) else NoValue
  }

  /** The scan is decided by the first controller line, wherever it is. */
  lemma ScanDecidedAt(lines: seq<string>, i: nat)
    requires i < |lines| && IsControllerLine(lines[i])
    requires forall k :: 0 <= k < i ==> !IsControllerLine(lines[k])
    ensures ScanControllers(lines) == if FieldValue(lines[i]).Some? then Found(FieldValue(lines[i]).value) else NoValue
  {
  }

  /** The state is the value of the first `VMState=` line, wherever it is. */
  lemma StateDecidedAt(lines: seq<string>, i: nat)
    requires i < |lines| && IsStateLine(lines[i])
    requires forall k :: 0 <= k < i ==> !IsStateLine(lines[k])
    ensures StateOf(lines) == FieldValue(lines[i])
  {
  }

  const DefaultController := "IDE Controller"

  /** The controller to attach to: the one found, unless missing or empty. */
  function ControllerName(scan: ControllerScan): (r: string)
    requires !scan.NoValue?
    ensures r != []
    ensures r == DefaultController <==> scan.NotFound? || scan.name == [] || scan.name == DefaultController
    ensures scan.Found? && scan.name != [] ==> r == scan.name
  {
    if scan.Found? && scan.name != [] then scan.name else DefaultController
  }

  // ---------------------------------------------------------------------
  // `guestproperty get ... /VirtualBox/GuestInfo/Net/0/V4/IP` (vm_runner.py:254-268)
  // ---------------------------------------------------------------------

  const NoValueMarker := "No value set!"
  const ValueMarker := "Value: "

  /**
    The address in the reply: None when `No value set!` appears anywhere in
    the stripped text (even beside `Value: `), else the stripped text after
    the first `Value: ` up to the next one, else None.
   */
  function IpOf(stdout: string): (r: Option<string>)
    ensures Contains(Strip(stdout), NoValueMarker) ==> r.None?
    ensures r.Some? <==> !Contains(Strip(stdout), NoValueMarker) && Contains(Strip(stdout), ValueMarker)
    ensures r.Some? ==>
              var o := Strip(stdout);
              var rest := o[IndexOf(o, ValueMarker).value + |ValueMarker|..];
              r.value == Strip(match IndexOf(rest, ValueMarker)
                               case Some(j) => rest[..j]
                               case None => rest)
    ensures r.Some? ==> Strip(r.value) == r.value
  {
    var o := Strip(stdout);
    if Contains(o, NoValueMarker) then None
    else if Contains(o, ValueMarker) then
      SecondPiece(o, ValueMarker);
      StripWithIdempotent(SplitOn(o, ValueMarker)[1], IsSpace);
      Some(Strip(SplitOn(o, ValueMarker)[1]))
    else None
  }
}
