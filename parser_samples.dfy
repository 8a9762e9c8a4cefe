/**
  The parsers on sample replies of VBoxManage: a two-VM listing, a
  machine-readable info block, and the two shapes of the guest-property reply.
  Each sample is passed as a parameter equal to the text; the general steps
  are lemmas over the pieces the text is made of.
 */
module ParserSamples {
  import opened Wrappers
  import opened PyStr
  import opened OutputParser

  lemma FirstOccurrenceOfChar(s: string, c: char, i: nat)
    requires i < |s| && s[i] == c && c !in s[..i]
    ensures IndexOf(s, [c]) == Some(i)
  {
    assert OccursAt(s, [c], i);
  }

  lemma AbsentFirstChar(s: string, sub: string)
    requires sub != [] && sub[0] !in s
    ensures IndexOf(s, sub) == None
  {
  }

  lemma StripUnchanged(s: string)
    requires s != [] && !IsSpace(s[0]) && !IsSpace(s[|s| - 1])
    ensures Strip(s) == s
  {
    assert TrimStart(s, IsSpace) == s;
  }

  /** Text made of two newline-free lines splits into exactly those two. */
  lemma TwoLines(a: string, b: string)
    requires '\n' !in a && '\n' !in b
    ensures SplitOn(a + "\n" + b, "\n") == [a, b]
  {
    var o := a + "\n" + b;
    assert o[|a|] == '\n' && o[..|a|] == a && o[|a| + 1..] == b;
    FirstOccurrenceOfChar(o, '\n', |a|);
    AbsentFirstChar(b, "\n");
  }

  /** A machine-readable `key="value"` line yields the value without its quotes. */
  lemma QuotedValue(line: string, key: string, v: string)
    requires line == key + "=\"" + v + "\""
    requires '=' !in key && '=' !in v && '"' !in v && v != []
    ensures FieldValue(line) == Some(v)
  {
    assert line[|key|] == '=' && line[..|key|] == key;
    FirstOccurrenceOfChar(line, '=', |key|);
    var quoted := line[|key| + 1..];
    assert quoted == "\"" + v + "\"";
    AbsentFirstChar(quoted, "=");
    assert SplitOn(line, "=")[1] == quoted;
    assert quoted[1..] == v + "\"";
    assert TrimStart(quoted[1..], IsQuote) == quoted[1..];
    assert TrimStart(quoted, IsQuote) == v + "\"";
    assert (v + "\"")[..|v|] == v;
    assert TrimEnd(v, IsQuote) == v;
  }

  /** A `list vms` line `"name"` followed by anything yields the name. */
  lemma QuotedName(line: string, name: string, rest: string)
    requires line == "\"" + name + "\"" + rest && '"' !in name
    ensures Contribution(line) == [name]
  {
    FirstOccurrenceOfChar(line, '"', 0);
    var after := line[1..];
    assert after == name + "\"" + rest;
    assert SplitOn(line, "\"") == [line[..0]] + SplitOn(after, "\"");
    assert after[|name|] == '"' && after[..|name|] == name;
    FirstOccurrenceOfChar(after, '"', |name|);
    assert SplitOn(after, "\"")[0] == name;
    assert !IsSpace(line[0]);
    StripWithEmpty(line, IsSpace);
  }

  lemma TwoListed(lines: seq<string>, l1: string, l2: string, n1: string, n2: string)
    requires lines == [l1, l2] && Contribution(l1) == [n1] && Contribution(l2) == [n2]
    ensures VmNames(lines) == [n1, n2]
  {
    assert lines[..0] == [];
    VmNamesSnoc(lines, 0);
    VmNamesSnoc(lines, 1);
    assert lines[..2] == lines;
  }

  // --- `list vms` -------------------------------------------------------

  /** Two quoted lines list their two names, in order. */
  lemma TwoListedLines(l1: string, n1: string, r1: string, l2: string, n2: string, r2: string)
    requires l1 == "\"" + n1 + "\"" + r1 && l2 == "\"" + n2 + "\"" + r2
    requires '"' !in n1 && '"' !in n2 && '\n' !in l1 && '\n' !in l2
    requires !IsSpace(l2[|l2| - 1])
    ensures VmNames(OutputLines(l1 + "\n" + l2)) == [n1, n2]
  {
    var o := l1 + "\n" + l2;
    assert o[0] == '"' && o[|o| - 1] == l2[|l2| - 1];
    StripUnchanged(o);
    TwoLines(l1, l2);
    QuotedName(l1, n1, r1);
    QuotedName(l2, n2, r2);
    TwoListed(OutputLines(o), l1, l2, n1, n2);
  }

  /** The listing lines `"web-01" {u1}` and `"db-01" {u2}` give their two names, in listing order. */
  lemma ListingSample(lines: seq<string>, web: string, db: string)
    requires web == "web-01" && db == "db-01"
    requires lines == ["\"" + web + "\" {u1}", "\"" + db + "\" {u2}"]
    ensures VmNames(lines) == [web, db]
  {
    QuotedName(lines[0], web, " {u1}");
    QuotedName(lines[1], db, " {u2}");
    TwoListed(lines, lines[0], lines[1], web, db);
  }

  // --- `showvminfo --machinereadable` -----------------------------------

  lemma SecondLineState(lines: seq<string>, first: string, line: string)
    requires lines == [first, line] && !IsStateLine(first) && IsStateLine(line)
    ensures StateOf(lines) == FieldValue(line)
  {
    StateDecidedAt(lines, 1);
  }

  lemma NameLine(line: string)
    requires line == "name=\"web\""
    ensures !IsStateLine(line)
  {
    assert line[0] == 'n';
  }

  lemma StateLine(line: string, state: string)
    requires line == "VMState=\"" + state + "\"" && '=' !in state && '"' !in state && state != []
    ensures IsStateLine(line) && FieldValue(line) == Some(state)
  {
    assert line == "VMState" + "=\"" + state + "\"";
    QuotedValue(line, "VMState", state);
    assert line[..8] == "VMState=";
  }

  /** Of the info lines `name="web"` and `VMState="running"`, the second gives the state `running`. */
  lemma StateSample(lines: seq<string>, running: string)
    requires running == "running"
    requires lines == ["name=\"web\"", "VMState=\"" + running + "\""]
    ensures StateOf(lines) == Some(running)
  {
    NameLine(lines[0]);
    StateLine(lines[1], running);
    SecondLineState(lines, lines[0], lines[1]);
  }

  /** Without a `VMState=` line there is no state. */
  lemma StateAbsentSample(lines: seq<string>)
    requires lines == ["name=\"web\""]
    ensures StateOf(lines) == None
  {
    NameLine(lines[0]);
  }

  // --- `guestproperty get` ----------------------------------------------

  /** A reply `Value: a` and a newline gives the address `a`. */
  lemma IpAfterValueMarker(address: string)
    requires address != [] && !IsSpace(address[0]) && !IsSpace(address[|address| - 1])
    requires 'N' !in address && 'V' !in address
    ensures IpOf(ValueMarker + address + "\n") == Some(address)
  {
    var o := ValueMarker + address;
    var t := o + "\n";
    assert TrimStart(t, IsSpace) == t;
    assert t[..|t| - 1] == o;
    assert o[|o| - 1] == address[|address| - 1];
    assert TrimEnd(o, IsSpace) == o;
    assert 'N' !in o;
    AbsentFirstChar(o, NoValueMarker);
    assert OccursAt(o, ValueMarker, 0);
    assert o[|ValueMarker|..] == address;
    AbsentFirstChar(address, ValueMarker);
    StripUnchanged(address);
  }

  /** A reply `Value: 10.0.2.15` gives the address `10.0.2.15`. */
  lemma IpValueSample(t: string)
    requires t == "Value: 10.0.2.15\n"
    ensures IpOf(t) == Some("10.0.2.15")
  {
    var address := t[7..16];
    assert address == "10.0.2.15";
    assert t == ValueMarker + address + "\n";
    IpAfterValueMarker(address);
  }

  /** The reply `No value set!` gives no address. */
  lemma IpNoValueSample(t: string)
    requires t == "No value set!"
    ensures IpOf(t) == None
  {
    StripUnchanged(t);
    assert OccursAt(t, NoValueMarker, 0);
  }
}
