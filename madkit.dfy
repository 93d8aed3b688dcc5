/** Start-up options of the platform (Madkit.java): the command-line
    parser, the launchAgents value, and the checks an option goes through
    before it is stored in the configuration. */
module Boot {
  import opened Collections
  import opened JavaText

  // Option names.
  const Network := "network"
  const LaunchAgents := "launchAgents"
  const ConfigFile := "configFile"
  const WarningLogLevel := "warningLogLevel"
  const CreateLogFiles := "createLogFiles"
  const LogDirectory := "logDirectory"
  const AgentsLogFile := "agentsLogFile"
  const NoAgentConsoleLog := "noAgentConsoleLog"
  const AgentLogLevel := "agentLogLevel"
  const NoOrgConsoleLog := "noOrgConsoleLog"
  const OrgLogLevel := "orgLogLevel"
  const MadkitLogFile := "MadkitLogFile"
  const NoMadkitConsoleLog := "noMadkitConsoleLog"
  const MadkitLogLevel := "MadkitLogLevel"
  const BooterAgentKey := "booterAgent"

  /** The options whose value is a java.util.logging level. */
  const LevelOptions: set<string> := {AgentLogLevel, MadkitLogLevel, OrgLogLevel, WarningLogLevel}

  /** The boolean options checkAndValidateOption normalises. */
  const BooleanOptions: set<string> := {CreateLogFiles, NoAgentConsoleLog, Network, NoMadkitConsoleLog}

  /** The values configFile and launchAgents refuse. */
  const NoValue: set<string> := {"true", "null", ""}

  // ---------------------------------------------------------------------
  // parseArgumentsIntoMap

  /** Option name (None for the values before any option) to value; a
      HashMap, which accepts the null key. */
  type ArgMap = map<Option<string>, string>

  /** A token that starts with "--". */
  predicate IsOptionToken(t: string) {
    |t| >= 2 && t[0] == '-' && t[1] == '-'
  }

  /** The run of tokens from the start up to the first option token. */
  function ValueRun(ts: seq<string>): (n: nat)
    ensures n <= |ts|
    ensures forall i :: 0 <= i < n ==> !IsOptionToken(ts[i])
    ensures n < |ts| ==> IsOptionToken(ts[n])
  {
    if ts == [] || IsOptionToken(ts[0]) then 0 else 1 + ValueRun(ts[1..])
  }

  /** The tokens of a run, each followed by one space. */
  function Spaced(run: seq<string>): string {
    if run == [] then "" else run[0] + " " + Spaced(run[1..])
  }

  /** One option and the run of value tokens after it; the key None holds
      the run of values that comes before any option. */
  datatype Segment = Segment(key: Option<string>, run: seq<string>)

  /** "true" for an option given alone, else its values joined by single
      spaces and trimmed. */
  function SegmentValue(seg: Segment): string {
    if seg.run == [] then "true" else Trim(Spaced(seg.run))
  }

  /** The segments of tokens that start with an option token. */
  function OptionSegments(ts: seq<string>): seq<Segment>
    requires ts == [] || IsOptionToken(ts[0])
    decreases |ts|
  {
    if ts == [] then []
    else
      var n := ValueRun(ts[1..]);
      [Segment(Some(ts[0][2..]), ts[1..1 + n])] + OptionSegments(ts[1 + n..])
  }

  /** The command line cut into segments, in order. */
  function Segments(args: seq<string>): seq<Segment> {
    var n := ValueRun(args);
    (if n == 0 then [] else [Segment(None, args[..n])]) + OptionSegments(args[n..])
  }

  /** The map after each segment in turn has written its value. */
  function ApplySegments(m: ArgMap, segs: seq<Segment>): ArgMap
    decreases |segs|
  {
    if segs == [] then m else ApplySegments(m[segs[0].key := SegmentValue(segs[0])], segs[1..])
  }

  /** What the token loop of parseArgumentsIntoMap computes from the
      tokens still to read, the option being filled, the text gathered
      for it and the map so far. */
  function Scan(rest: seq<string>, option: Option<string>, parameters: string, m: ArgMap): ArgMap
    decreases |rest|
  {
    if rest == [] then m
    else if IsOptionToken(rest[0]) then
      var o := Some(rest[0][2..]);
      Scan(rest[1..], o, "", m[o := "true"])
    else
      var p := parameters + rest[0] + " ";
      Scan(rest[1..], option, p, if |rest| == 1 || IsOptionToken(rest[1]) then m[option := Trim(p)] else m)
  }

  /** The map after a first segment, then the others. */
  lemma ApplyFirst(m: ArgMap, seg: Segment, segs: seq<Segment>)
    ensures ApplySegments(m, [seg] + segs) == ApplySegments(m[seg.key := SegmentValue(seg)], segs)
  {
    assert ([seg] + segs)[1..] == segs;
  }

  /** A value token adds itself and a space to the text gathered, and
      writes the text when the run ends with it. */
  lemma ScanValueToken(rest: seq<string>, option: Option<string>, parameters: string, m: ArgMap)
    requires rest != [] && !IsOptionToken(rest[0])
    ensures var p := parameters + rest[0] + " ";
            Scan(rest, option, parameters, m) ==
            Scan(rest[1..], option, p, if |rest| == 1 || IsOptionToken(rest[1]) then m[option := Trim(p)] else m)
  {
  }

  /** Reading a run of value tokens writes the option once, with the
      whole run, when the run ends. */
  lemma {:induction false} ScanRun(rest: seq<string>, option: Option<string>, parameters: string, m: ArgMap)
    requires ValueRun(rest) > 0
    ensures var k := ValueRun(rest);
            var p := parameters + Spaced(rest[..k]);
            Scan(rest, option, parameters, m) == Scan(rest[k..], option, p, m[option := Trim(p)])
    decreases |rest|
  {
    var k := ValueRun(rest);
    var p := parameters + rest[0] + " ";
    SpacedFront(rest, k, parameters);
    if k == 1 {
      ScanRunEnd(rest, option, parameters, m);
      assert rest[1..][..0] == [];
      assert Spaced(rest[1..][..k - 1]) == "";
      assert p + "" == p;
    } else {
      ScanRunStep(rest, option, parameters, m);
      ScanRun(rest[1..], option, p, m);
      assert rest[1..][k - 1..] == rest[k..];
    }
  }

  /** The last token of a run writes the text gathered. */
  lemma ScanRunEnd(rest: seq<string>, option: Option<string>, parameters: string, m: ArgMap)
    requires ValueRun(rest) == 1
    ensures var p := parameters + rest[0] + " ";
            Scan(rest, option, parameters, m) == Scan(rest[1..], option, p, m[option := Trim(p)])
  {
    ScanValueToken(rest, option, parameters, m);
  }

  /** A token inside a run only gathers text. */
  lemma ScanRunStep(rest: seq<string>, option: Option<string>, parameters: string, m: ArgMap)
    requires ValueRun(rest) > 1
    ensures ValueRun(rest[1..]) == ValueRun(rest) - 1
    ensures Scan(rest, option, parameters, m) == Scan(rest[1..], option, parameters + rest[0] + " ", m)
  {
    ScanValueToken(rest, option, parameters, m);
  }

  /** The text a run adds is its first token and a space, then the rest
      of the run's text. */
  lemma SpacedFront(rest: seq<string>, k: nat, parameters: string)
    requires 0 < k <= |rest|
    ensures parameters + Spaced(rest[..k]) == parameters + rest[0] + " " + Spaced(rest[1..][..k - 1])
  {
    var run := rest[..k];
    assert run[0] == rest[0] && run[1..] == rest[1..][..k - 1];
  }

  /** An option token writes "true" under its name and starts a new run. */
  lemma ScanOptionToken(ts: seq<string>, option: Option<string>, parameters: string, m: ArgMap)
    requires ts != [] && IsOptionToken(ts[0])
    ensures Scan(ts, option, parameters, m) == Scan(ts[1..], Some(ts[0][2..]), "", m[Some(ts[0][2..]) := "true"])
  {
  }

  /** The segments from an option token on. */
  lemma OptionSegmentsFirst(ts: seq<string>)
    requires ts != [] && IsOptionToken(ts[0])
    ensures var n := ValueRun(ts[1..]);
            OptionSegments(ts) == [Segment(Some(ts[0][2..]), ts[1..1 + n])] + OptionSegments(ts[1 + n..])
  {
  }

  /** An option token and the run after it write the option's segment
      value and leave the loop at the next option token. */
  lemma ScanSegment(ts: seq<string>, option: Option<string>, parameters: string, m: ArgMap)
    requires ts != [] && IsOptionToken(ts[0])
    ensures var n := ValueRun(ts[1..]);
            var seg := Segment(Some(ts[0][2..]), ts[1..1 + n]);
            Scan(ts, option, parameters, m) == Scan(ts[1 + n..], seg.key, Spaced(seg.run), m[seg.key := SegmentValue(seg)])
  {
    ScanOptionToken(ts, option, parameters, m);
    if ValueRun(ts[1..]) == 0 {
      assert ts[1..] == ts[1 + 0..];
    } else {
      var o := Some(ts[0][2..]);
      var seg := Segment(o, ts[1..1 + ValueRun(ts[1..])]);
      ScanOptionRun(ts, o, m[o := "true"]);
      assert m[o := "true"][o := SegmentValue(seg)] == m[o := SegmentValue(seg)];
    }
  }

  lemma ScanOptionRun(ts: seq<string>, o: Option<string>, m1: ArgMap)
    requires ts != [] && ValueRun(ts[1..]) > 0
    ensures var n := ValueRun(ts[1..]);
            var seg := Segment(o, ts[1..1 + n]);
            Scan(ts[1..], o, "", m1) == Scan(ts[1 + n..], o, Spaced(seg.run), m1[o := SegmentValue(seg)])
  {
    var n := ValueRun(ts[1..]);
    ScanRun(ts[1..], o, "", m1);
    assert ts[1..][..n] == ts[1..1 + n] && ts[1..][n..] == ts[1 + n..];
    assert "" + Spaced(ts[1..1 + n]) == Spaced(ts[1..1 + n]);
  }

  /** From an option token on, the token loop fills the map as the
      segments say, whatever option and text it held before. */
  lemma {:induction false} ScanOptions(ts: seq<string>, option: Option<string>, parameters: string, m: ArgMap)
    requires ts == [] || IsOptionToken(ts[0])
    ensures Scan(ts, option, parameters, m) == ApplySegments(m, OptionSegments(ts))
    decreases |ts|
  {
    if ts != [] {
      var n := ValueRun(ts[1..]);
      var seg := Segment(Some(ts[0][2..]), ts[1..1 + n]);
      var after := ts[1 + n..];
      OptionSegmentsFirst(ts);
      ApplyFirst(m, seg, OptionSegments(after));
      ScanSegment(ts, option, parameters, m);
      ScanOptions(after, seg.key, Spaced(seg.run), m[seg.key := SegmentValue(seg)]);
    }
  }

  /** The token loop fills the map exactly as the segments say. */
  lemma ScanSegments(args: seq<string>, m: ArgMap)
    ensures Scan(args, None, "", m) == ApplySegments(m, Segments(args))
  {
    var n := ValueRun(args);
    if n == 0 {
      assert args[0..] == args;
      assert Segments(args) == OptionSegments(args);
      ScanOptions(args, None, "", m);
    } else {
      var seg := Segment(None, args[..n]);
      assert Segments(args) == [seg] + OptionSegments(args[n..]);
      ApplyFirst(m, seg, OptionSegments(args[n..]));
      ScanRun(args, None, "", m);
      assert "" + Spaced(args[..n]) == Spaced(args[..n]);
      ScanOptions(args[n..], None, Spaced(args[..n]), m[None := Trim(Spaced(args[..n]))]);
    }
  }

  /** parseArgumentsIntoMap: every option token writes "true" under the
      name after the dashes; a run of value tokens then overwrites the
      value of the option before it (or of the null key) with the run
      joined by spaces and trimmed. */
  method ParseArgumentsIntoMap(args: seq<string>, current: ArgMap) returns (result: ArgMap)
    ensures result == ApplySegments(current, Segments(args))
  {
    var parameters := "";
    var currentOption: Option<string> := None;
    result := current;
    var i := 0;
    while i < |args|
      invariant i <= |args|
      invariant Scan(args[i..], currentOption, parameters, result) == Scan(args, None, "", current)
    {
      assert args[i..][1..] == args[i + 1..];
      if IsOptionToken(args[i]) {
        currentOption := Some(args[i][2..]);
        result := result[currentOption := "true"];
        parameters := "";
      } else {
        parameters := parameters + args[i] + " ";
        if i + 1 == |args| || IsOptionToken(args[i + 1]) {
          result := result[currentOption := Trim(parameters)];
        }
      }
      i := i + 1;
    }
    assert args[0..] == args;
    ScanSegments(args, current);
  }

  /** A key no segment names keeps what it had. */
  lemma {:induction false} ApplyUnmentioned(m: ArgMap, segs: seq<Segment>, k: Option<string>)
    requires forall i :: 0 <= i < |segs| ==> segs[i].key != k
    ensures k in ApplySegments(m, segs) <==> k in m
    ensures k in m ==> ApplySegments(m, segs)[k] == m[k]
    decreases |segs|
  {
    if segs != [] {
      ApplyUnmentioned(m[segs[0].key := SegmentValue(segs[0])], segs[1..], k);
    }
  }

  /** The last segment naming a key decides its value. */
  lemma {:induction false} ApplyLastWins(m: ArgMap, segs: seq<Segment>, i: nat)
    requires i < |segs|
    requires forall j :: i < j < |segs| ==> segs[j].key != segs[i].key
    ensures segs[i].key in ApplySegments(m, segs)
    ensures ApplySegments(m, segs)[segs[i].key] == SegmentValue(segs[i])
    decreases |segs|
  {
    var m' := m[segs[0].key := SegmentValue(segs[0])];
    if i == 0 {
      ApplyUnmentioned(m', segs[1..], segs[0].key);
    } else {
      ApplyLastWins(m', segs[1..], i - 1);
    }
  }

  /** A key some segment names gets the same value whatever the map held
      before: the command line overrides what was there. */
  lemma {:induction false} ApplyOverrides(m: ArgMap, m': ArgMap, segs: seq<Segment>, k: Option<string>)
    requires exists i :: 0 <= i < |segs| && segs[i].key == k
    ensures k in ApplySegments(m, segs) && k in ApplySegments(m', segs)
    ensures ApplySegments(m, segs)[k] == ApplySegments(m', segs)[k]
    decreases |segs|
  {
    var a := m[segs[0].key := SegmentValue(segs[0])];
    var b := m'[segs[0].key := SegmentValue(segs[0])];
    if exists i :: 1 <= i < |segs| && segs[i].key == k {
      var i :| 1 <= i < |segs| && segs[i].key == k;
      assert segs[1..][i - 1].key == k;
      ApplyOverrides(a, b, segs[1..], k);
    } else {
      forall j | 0 <= j < |segs[1..]| ensures segs[1..][j].key != k {
        assert segs[1..][j] == segs[j + 1];
      }
      ApplyUnmentioned(a, segs[1..], k);
      ApplyUnmentioned(b, segs[1..], k);
    }
  }

  /** The command line of the TestArg boot test reads as that test expects. */
  lemma TestArgCommandLine()
    ensures var m := CommandLine(["--autoAgentLogFile", "bin", "true", "--agentLogLevel", "ALL"]);
            Some("autoAgentLogFile") in m && m[Some("autoAgentLogFile")] == "bin true" &&
            Some("agentLogLevel") in m && m[Some("agentLogLevel")] == "ALL"
  {
    var s1 := Segment(Some("autoAgentLogFile"), ["bin", "true"]);
    var s2 := Segment(Some("agentLogLevel"), ["ALL"]);
    TestArgSegments();
    TestArgValues();
    ApplyLastWins(map[], [s1, s2], 0);
    ApplyLastWins(map[], [s1, s2], 1);
  }

  lemma TestArgSegments()
    ensures Segments(["--autoAgentLogFile", "bin", "true", "--agentLogLevel", "ALL"]) ==
      [Segment(Some("autoAgentLogFile"), ["bin", "true"]), Segment(Some("agentLogLevel"), ["ALL"])]
  {
    var args := ["--autoAgentLogFile", "bin", "true", "--agentLogLevel", "ALL"];
    var tail := ["--agentLogLevel", "ALL"];
    var s1 := Segment(Some("autoAgentLogFile"), ["bin", "true"]);
    assert args[3..] == tail && args[1..] == ["bin", "true"] + tail;
    assert IsOptionToken(tail[0]) && !IsOptionToken("bin") && !IsOptionToken("true");
    TestArgLastSegment();
    TestArgFirstRun();
    OptionSegmentsFirst(args);
    assert args[1..3] == ["bin", "true"] && args[0][2..] == "autoAgentLogFile";
    assert OptionSegments(args) == [s1] + OptionSegments(tail);
    assert ValueRun(args) == 0 && args[0..] == args;
  }

  lemma TestArgFirstRun()
    ensures ValueRun(["bin", "true", "--agentLogLevel", "ALL"]) == 2
  {
    var run := ["bin", "true", "--agentLogLevel", "ALL"];
    assert !IsOptionToken("bin") && !IsOptionToken("true") && IsOptionToken(run[2]);
    assert run[1..][1..] == run[2..];
  }

  lemma TestArgLastSegment()
    ensures OptionSegments(["--agentLogLevel", "ALL"]) == [Segment(Some("agentLogLevel"), ["ALL"])]
    ensures ValueRun(["--agentLogLevel", "ALL"]) == 0
  {
    var tail := ["--agentLogLevel", "ALL"];
    assert IsOptionToken(tail[0]) && !IsOptionToken("ALL");
    assert ValueRun(tail[1..]) == 1 by {
      assert tail[1..] == ["ALL"] && ["ALL"][1..] == [];
    }
    OptionSegmentsFirst(tail);
    assert tail[1..2] == ["ALL"] && tail[2..] == [] && tail[0][2..] == "agentLogLevel";
  }

  /** A value with no surrounding spaces survives the space that the
      token loop appends to it. */
  lemma TrimAppendedSpace(s: string)
    requires s != [] && !IsSpace(s[0]) && !IsSpace(s[|s| - 1])
    ensures Trim(s + " ") == s
  {
    assert TrimStart(s + " ") == s + " ";
    assert (s + " ")[..|s|] == s;
    assert TrimEnd(s + " ") == TrimEnd(s);
  }

  lemma TestArgValues()
    ensures SegmentValue(Segment(Some("autoAgentLogFile"), ["bin", "true"])) == "bin true"
    ensures SegmentValue(Segment(Some("agentLogLevel"), ["ALL"])) == "ALL"
  {
    assert Spaced(["bin", "true"]) == "bin true" + " " by {
      assert ["bin", "true"][1..] == ["true"] && ["true"][1..] == [];
    }
    TrimAppendedSpace("bin true");
    assert Spaced(["ALL"]) == "ALL" + " ";
    TrimAppendedSpace("ALL");
  }

  // ---------------------------------------------------------------------
  // The launchAgents value: "Class,withGUI,count;Class,...".

  /** One agent class to launch, with or without its default GUI, and how many. */
  datatype LaunchEntry = LaunchEntry(className: string, withGUI: bool, instances: int)

  /** Why an entry cannot be launched: it has no class field (the array
      access fails), or its count is not an integer. */
  datatype LaunchError = MissingClassName(entry: string) | BadInstanceCount(field: string)

  datatype Result<T> = Ok(value: T) | Err(error: LaunchError)

  /** The entry split at commas: the class name is the first field
      trimmed, the GUI flag the second read as a boolean (false when
      absent), the count the third read as an integer (1 when absent). */
  function ParseLaunchEntry(entry: string): Result<LaunchEntry>
  {
    var fields := Split(entry, ',');
    if fields == [] then Err(MissingClassName(entry))
    else
      var withGUI := if |fields| > 1 then ParseBoolean(Trim(fields[1])) else false;
      if |fields| > 2 then
        match ParseInt(Trim(fields[2]))
        case None => Err(BadInstanceCount(fields[2]))
        case Some(n) => Ok(LaunchEntry(Trim(fields[0]), withGUI, n))
      else Ok(LaunchEntry(Trim(fields[0]), withGUI, 1))
  }

  /** The boolean as Boolean.toString writes it. */
  function BooleanWord(b: bool): string {
    if b then "true" else "false"
  }

  /** The entry written back in the form the option documents. */
  function RenderLaunchEntry(e: LaunchEntry): string {
    Join([e.className, BooleanWord(e.withGUI), IntToString(e.instances)], ',')
  }

  /** Reading back a written entry gives the entry, for every class name
      without a comma or surrounding spaces and every 32-bit count. */
  lemma RenderParse(e: LaunchEntry)
    requires ',' !in e.className && Trim(e.className) == e.className
    requires IntMin <= e.instances <= IntMax
    ensures ParseLaunchEntry(RenderLaunchEntry(e)) == Ok(e)
  {
    var word, count := BooleanWord(e.withGUI), IntToString(e.instances);
    RenderFields(e);
    ParseIntToString(e.instances);
    BooleanWordReads(e.withGUI);
    ParseThreeFields(RenderLaunchEntry(e), e.className, word, count);
  }

  /** An entry naming only its class reads with no GUI and one instance. */
  lemma RenderParseClassOnly(className: string)
    requires ',' !in className && Trim(className) == className
    ensures ParseLaunchEntry(className) == Ok(LaunchEntry(className, false, 1))
  {
  }

  /** An entry naming its class and GUI flag, "Class,withGUI", reads with
      one instance. */
  lemma RenderParseWithGUI(className: string, withGUI: bool)
    requires ',' !in className && Trim(className) == className
    ensures ParseLaunchEntry(Join([className, BooleanWord(withGUI)], ',')) == Ok(LaunchEntry(className, withGUI, 1))
  {
    var word := BooleanWord(withGUI);
    var entry := Join([className, word], ',');
    BooleanWordReads(withGUI);
    BooleanWordShape(withGUI);
    SplitJoin([className, word], ',');
    ParseTwoFields(entry, className, word);
  }

  /** Boolean.toString writes a non-empty word without a comma. */
  lemma BooleanWordShape(b: bool)
    ensures BooleanWord(b) != "" && ',' !in BooleanWord(b)
  {
    if b {
      assert BooleanWord(b) == ['t', 'r', 'u', 'e'];
    } else {
      assert BooleanWord(b) == ['f', 'a', 'l', 's', 'e'];
    }
  }

  /** An entry of two fields reads with one instance. */
  lemma ParseTwoFields(entry: string, name: string, gui: string)
    requires Split(entry, ',') == [name, gui]
    ensures ParseLaunchEntry(entry) == Ok(LaunchEntry(Trim(name), ParseBoolean(Trim(gui)), 1))
  {
  }

  /** An entry of three fields with an integer count reads field by field. */
  lemma ParseThreeFields(entry: string, name: string, gui: string, count: string)
    requires Split(entry, ',') == [name, gui, count] && ParseInt(Trim(count)).Some?
    ensures ParseLaunchEntry(entry) == Ok(LaunchEntry(Trim(name), ParseBoolean(Trim(gui)), ParseInt(Trim(count)).value))
  {
  }

  /** parseBoolean reads back what Boolean.toString writes. */
  lemma BooleanWordReads(b: bool)
    ensures Trim(BooleanWord(b)) == BooleanWord(b) && ParseBoolean(BooleanWord(b)) == b
  {
    var w := BooleanWord(b);
    assert w[0] != ' ' && w[|w| - 1] == 'e';
    assert forall i :: 0 <= i < |w| ==> 'a' <= w[i] <= 'z';
    LowerCaseWord(w);
    assert b <==> |w| == 4;
  }

  /** A word of lower-case letters is its own lower case. */
  lemma LowerCaseWord(w: string)
    requires forall i :: 0 <= i < |w| ==> 'a' <= w[i] <= 'z'
    ensures ToLower(w) == w
  {
  }

  /** Integer.toString writes no comma and no surrounding space. */
  lemma IntToStringShape(n: int)
    ensures var s := IntToString(n);
            s != [] && ',' !in s && Trim(s) == s
  {
    var s := IntToString(n);
    assert (IsDigit(s[0]) || s[0] == '-') && IsDigit(s[|s| - 1]) by {
      if n < 0 {
        assert s[1..] == NatToString(-n);
      }
    }
    assert ',' !in s by {
      if n < 0 {
        assert s == "-" + NatToString(-n);
      }
    }
  }

  /** The written entry splits back into its three fields. */
  lemma RenderFields(e: LaunchEntry)
    requires ',' !in e.className
    ensures Split(RenderLaunchEntry(e), ',') == [e.className, BooleanWord(e.withGUI), IntToString(e.instances)]
    ensures Trim(IntToString(e.instances)) == IntToString(e.instances)
  {
    IntToStringShape(e.instances);
    BooleanWordShape(e.withGUI);
    SplitJoin([e.className, BooleanWord(e.withGUI), IntToString(e.instances)], ',');
  }

  /** The entries of a launchAgents value; "null" names none. */
  function LaunchEntries(value: string): seq<string> {
    if value == "null" then [] else Split(value, ';')
  }

  /** Each entry read, in order. */
  function ReadAll(entries: seq<string>): (rs: seq<Result<LaunchEntry>>)
    ensures |rs| == |entries|
    ensures forall i :: 0 <= i < |entries| ==> rs[i] == ParseLaunchEntry(entries[i])
  {
    MapSeq(ParseLaunchEntry, entries)
  }

  /** What reading the launchAgents value gives, entry by entry. */
  function LaunchPlan(value: string): seq<Result<LaunchEntry>> {
    ReadAll(LaunchEntries(value))
  }

  /** The error of the first entry that cannot be read, if any. */
  function FirstFailure(rs: seq<Result<LaunchEntry>>): Option<LaunchError>
    decreases |rs|
  {
    if rs == [] then None
    else
      var before := FirstFailure(rs[..|rs| - 1]);
      if before.Some? then before
      else if rs[|rs| - 1].Err? then Some(rs[|rs| - 1].error)
      else None
  }

  /** The entries read before the first failing one. */
  function ParsedPrefix(rs: seq<Result<LaunchEntry>>): (r: seq<LaunchEntry>)
    ensures |r| <= |rs|
    ensures FirstFailure(rs).None? ==> |r| == |rs|
    decreases |rs|
  {
    if rs == [] then []
    else
      var front := rs[..|rs| - 1];
      if FirstFailure(front).Some? || rs[|rs| - 1].Err? then ParsedPrefix(front)
      else ParsedPrefix(front) + [rs[|rs| - 1].value]
  }

  /** The first failure is the error of the first entry that fails, and
      the entries read before it are exactly the entries before it. */
  lemma {:induction false} FirstFailureAt(rs: seq<Result<LaunchEntry>>, i: nat)
    requires i < |rs| && rs[i].Err? && forall j :: 0 <= j < i ==> rs[j].Ok?
    ensures FirstFailure(rs) == Some(rs[i].error)
    ensures ParsedPrefix(rs) == ParsedPrefix(rs[..i])
    decreases |rs|
  {
    var n := |rs| - 1;
    if i < n {
      assert rs[..n][i] == rs[i];
      FirstFailureAt(rs[..n], i);
      assert rs[..n][..i] == rs[..i];
    } else {
      NoFailureIffAllOk(rs[..n]);
      assert rs[..n] == rs[..i];
    }
  }

  /** While every entry reads, the entries read are all of them. */
  lemma {:induction false} AllRead(rs: seq<Result<LaunchEntry>>)
    requires forall j :: 0 <= j < |rs| ==> rs[j].Ok?
    ensures FirstFailure(rs).None?
    ensures |ParsedPrefix(rs)| == |rs| && forall j :: 0 <= j < |rs| ==> ParsedPrefix(rs)[j] == rs[j].value
    decreases |rs|
  {
    if rs != [] {
      var n := |rs| - 1;
      AllRead(rs[..n]);
    }
  }

  /** The loop of launchConfigAgents stopping at entry i: its error is
      the first failure, and the entries launched are those read. */
  lemma StoppedAt(rs: seq<Result<LaunchEntry>>, i: nat, done: seq<LaunchEntry>)
    requires i < |rs| && rs[i].Err? && |done| == i
    requires forall j :: 0 <= j < i ==> rs[j].Ok? && done[j] == rs[j].value
    ensures FirstFailure(rs) == Some(rs[i].error) && ParsedPrefix(rs) == done
  {
    AllRead(rs[..i]);
    FirstFailureAt(rs, i);
  }

  /** The loop of launchConfigAgents running to the end. */
  lemma ReadThrough(rs: seq<Result<LaunchEntry>>, done: seq<LaunchEntry>)
    requires |done| == |rs|
    requires forall j :: 0 <= j < |rs| ==> rs[j].Ok? && done[j] == rs[j].value
    ensures FirstFailure(rs).None? && ParsedPrefix(rs) == done
  {
    AllRead(rs);
  }

  /** Once an entry has failed, later entries change nothing. */
  lemma {:induction false} FailureSticks(rs: seq<Result<LaunchEntry>>, i: nat)
    requires i <= |rs| && FirstFailure(rs[..i]).Some?
    ensures FirstFailure(rs) == FirstFailure(rs[..i])
    ensures ParsedPrefix(rs) == ParsedPrefix(rs[..i])
    decreases |rs| - i
  {
    if i < |rs| {
      var n := |rs| - 1;
      assert rs[..n][..i] == rs[..i];
      FailureSticks(rs[..n], i);
    } else {
      assert rs[..i] == rs;
    }
  }

  /** No entry fails exactly when every entry reads. */
  lemma {:induction false} NoFailureIffAllOk(rs: seq<Result<LaunchEntry>>)
    ensures FirstFailure(rs).None? <==> forall i :: 0 <= i < |rs| ==> rs[i].Ok?
    decreases |rs|
  {
    if rs != [] {
      var n := |rs| - 1;
      NoFailureIffAllOk(rs[..n]);
      assert forall i :: 0 <= i < n ==> rs[..n][i] == rs[i];
    }
  }

  /** The test launchAgentsOptionValidate makes of one entry: three
      fields or more need an integer third field. */
  predicate EntryPassesCheck(entry: string) {
    var fields := Split(entry, ',');
    |fields| > 2 ==> ParseInt(Trim(fields[2])).Some?
  }

  /** launchAgentsOptionValidate as written: "null" is valid; otherwise
      every entry must pass the check above. */
  predicate LaunchAgentsOptionValidate(value: string) {
    value == "null" || forall e :: e in Split(value, ';') ==> EntryPassesCheck(e)
  }

  /** The test as intended: the entry also needs a field for its class
      name, which an entry made only of commas lacks. */
  predicate EntryLaunchable(entry: string) {
    Split(entry, ',') != [] && EntryPassesCheck(entry)
  }

  /** The check as intended. */
  predicate LaunchAgentsValueValid(value: string) {
    value == "null" || forall e :: e in Split(value, ';') ==> EntryLaunchable(e)
  }

  /** An entry reads exactly when the intended test accepts it. */
  lemma EntryReadsIffLaunchable(entry: string)
    ensures ParseLaunchEntry(entry).Ok? <==> EntryLaunchable(entry)
  {
  }

  /** The intended check accepts a value exactly when every entry of it
      can be launched. */
  lemma ValidValueLaunchesCleanly(value: string)
    ensures LaunchAgentsValueValid(value) <==> FirstFailure(LaunchPlan(value)).None?
  {
    var es := LaunchEntries(value);
    var rs := LaunchPlan(value);
    NoFailureIffAllOk(rs);
    if value != "null" {
      if LaunchAgentsValueValid(value) {
        forall i | 0 <= i < |es| ensures rs[i].Ok? {
          assert es[i] in Split(value, ';');
          EntryReadsIffLaunchable(es[i]);
        }
      } else {
        var e :| e in Split(value, ';') && !EntryLaunchable(e);
        var i :| 0 <= i < |es| && es[i] == e;
        EntryReadsIffLaunchable(e);
      }
    }
  }

  /** Whatever can be launched passes the check as written. */
  lemma LaunchableValuePassesValidation(value: string)
    requires FirstFailure(LaunchPlan(value)).None?
    ensures LaunchAgentsOptionValidate(value)
  {
    ValidValueLaunchesCleanly(value);
  }

  /** The check as written accepts ",", whose one entry has no field, so
      launchConfigAgents then fails on its class name. */
  lemma CommaOnlyEntryPassesValidation()
    ensures LaunchAgentsOptionValidate(",")
    ensures FirstFailure(LaunchPlan(",")) == Some(MissingClassName(","))
  {
    assert ';' !in ",";
    assert Split(",", ';') == [","];
    assert IndexOf(",", ',') == 0;
    assert Pieces(",", ',') == ["", ""] by {
      assert ","[1..] == "";
      assert Pieces("", ',') == [""];
    }
    assert Split(",", ',') == [];
    FirstFailureAt(LaunchPlan(","), 0);
  }

  /** One call of launchAgent(className, 1, withGUI). */
  datatype Launch = Launch(className: string, withGUI: bool)

  /** n copies of x; none when n is not positive. */
  function Repeat<T>(x: T, n: int): (r: seq<T>)
    ensures |r| == if n <= 0 then 0 else n
    ensures forall y :: y in r ==> y == x
    decreases n
  {
    if n <= 0 then [] else Repeat(x, n - 1) + [x]
  }

  /** The launches of a list of entries, in order, count by count. */
  function Launches(entries: seq<LaunchEntry>): seq<Launch>
    decreases |entries|
  {
    if entries == [] then []
    else
      var e := entries[|entries| - 1];
      Launches(entries[..|entries| - 1]) + Repeat(Launch(e.className, e.withGUI), e.instances)
  }

  lemma LaunchesStep(entries: seq<LaunchEntry>, e: LaunchEntry)
    ensures Launches(entries + [e]) == Launches(entries) + Repeat(Launch(e.className, e.withGUI), e.instances)
  {
    assert (entries + [e])[..|entries|] == entries;
  }

  // ---------------------------------------------------------------------
  // checkAndValidateOption

  /** What the platform is given from outside: the option names and
      default values of the kernel's properties file, the file separator,
      the level name Level.parse gives a value (None when it throws),
      whether a class name loads as an agent class, and the madkitOptions
      attributes of a configuration file (None when it cannot be read). */
  datatype Platform = Platform(
    defaults: map<string, string>,
    separator: string,
    levelName: string -> Option<string>,
    loadable: string -> bool,
    configFiles: string -> Option<map<string, string>>)

  /** Properties.getProperty with the defaults behind the own entries. */
  function GetProperty(p: Platform, config: map<string, string>, key: string): string
    requires key in config || key in p.defaults
  {
    if key in config then config[key] else p.defaults[key]
  }

  /** The branch of checkAndValidateOption a known option reaches. */
  datatype OptionKind =
    | LevelOption | ConfigFileOption | LaunchAgentsOption | BooterOption
    | LogFileOption | LogDirectoryOption | BooleanOption | UncheckedOption

  function KindOf(option: string): (k: OptionKind)
    ensures k == LevelOption <==> option in LevelOptions
    ensures k == ConfigFileOption <==> option == ConfigFile
    ensures k == LaunchAgentsOption <==> option == LaunchAgents
    ensures k == BooterOption <==> option == BooterAgentKey
    ensures k == LogFileOption <==> option == AgentsLogFile || option == MadkitLogFile
    ensures k == LogDirectoryOption <==> option == LogDirectory
    ensures k == BooleanOption <==> option in BooleanOptions
  {
    if option in LevelOptions then LevelOption
    else if option == ConfigFile then ConfigFileOption
    else if option == LaunchAgents then LaunchAgentsOption
    else if option == BooterAgentKey then BooterOption
    else if option == AgentsLogFile || option == MadkitLogFile then LogFileOption
    else if option == LogDirectory then LogDirectoryOption
    else if option in BooleanOptions then BooleanOption
    else UncheckedOption
  }

  /** The value checkAndValidateOption stores for option, or None when it
      answers false and stores nothing. */
  function Outcome(p: Platform, config: map<string, string>, option: string, value: string): (r: Option<string>)
    // an option the platform does not know is kept as given
    ensures option !in p.defaults ==> r == Some(value)
    // a known option given its current value is left alone, except for
    // configFile, launchAgents and booterAgent, which are not compared
    ensures option in p.defaults && value == GetProperty(p, config, option) && option !in {ConfigFile, LaunchAgents, BooterAgentKey} ==> r.None?
    // noOrgConsoleLog and the other known options not listed here are refused
    ensures option in p.defaults && KindOf(option) == UncheckedOption ==> r.None?
    ensures option in p.defaults && option in LevelOptions ==>
      (r.Some? <==> value != GetProperty(p, config, option) && p.levelName(value).Some?) && (r.Some? ==> r == p.levelName(value))
    ensures option in p.defaults && option == ConfigFile ==> (r.Some? <==> value !in NoValue) && (r.Some? ==> r.value == value)
    ensures option in p.defaults && option == LaunchAgents ==>
      (r.Some? <==> value !in NoValue && FirstFailure(LaunchPlan(value)).None?) && (r.Some? ==> r.value == value)
    ensures option in p.defaults && option == BooterAgentKey ==> (r.Some? <==> value != "true" && p.loadable(value)) && (r.Some? ==> r.value == value)
    ensures option in p.defaults && option in {AgentsLogFile, MadkitLogFile} ==> (r.Some? <==> value != GetProperty(p, config, option)) && (r.Some? ==> r.value == value)
    ensures option in p.defaults && option == LogDirectory ==> (r.Some? <==> value != GetProperty(p, config, option))
    ensures option in p.defaults && option == LogDirectory && r.Some? ==>
      r.value == (if EndsWith(value, p.separator) then value else value + p.separator) && EndsWith(r.value, p.separator)
    ensures option in p.defaults && option in BooleanOptions ==>
      (r.Some? <==> value != GetProperty(p, config, option) && ToLower(Trim(value)) in {"true", "false"})
    ensures option in p.defaults && option in BooleanOptions && r.Some? ==>
      (r.value == "true" || r.value == "false") && (ParseBoolean(r.value) <==> ParseBoolean(Trim(value)))
  {
    if option !in p.defaults then Some(value)
    else
      var current := GetProperty(p, config, option);
      match KindOf(option)
      case LevelOption =>
        if value != current then p.levelName(value) else None
      case ConfigFileOption =>
        if value !in NoValue then Some(value) else None
      case LaunchAgentsOption =>
        ValidValueLaunchesCleanly(value);
        if value !in NoValue && LaunchAgentsValueValid(value) then Some(value) else None
      case BooterOption =>
        if value != "true" && p.loadable(value) then Some(value) else None
      case LogFileOption =>
        if value != current then Some(value) else None
      case LogDirectoryOption =>
        if value == current then None
        else if EndsWith(value, p.separator) then Some(value)
        else
          assert (value + p.separator)[..|value|] == value;
          Some(value + p.separator)
      case BooleanOption =>
        var lowered := ToLower(Trim(value));
        LowerCaseReadsTheSame(Trim(value));
        if value != current && lowered in {"true", "false"} then Some(lowered) else None
      case UncheckedOption => None
  }

  /** The launchAgents branch uses the corrected validator: "," passes the
      validator as written, yet is refused here, because its one entry
      cannot be launched. */
  lemma CommaOnlyLaunchAgentsRefused(p: Platform, config: map<string, string>)
    requires LaunchAgents in p.defaults
    ensures LaunchAgentsOptionValidate(",")
    ensures Outcome(p, config, LaunchAgents, ",").None?
  {
    CommaOnlyEntryPassesValidation();
  }

  /** The check of an option reads the configuration at that option only. */
  lemma OutcomeLocal(p: Platform, c1: map<string, string>, c2: map<string, string>, option: string, value: string)
    requires Lookup(c1, option) == Lookup(c2, option)
    ensures Outcome(p, c1, option, value) == Outcome(p, c2, option, value)
  {
  }

  /** Lower-casing does not change what parseBoolean reads. */
  lemma LowerCaseReadsTheSame(s: string)
    ensures ParseBoolean(ToLower(s)) <==> ParseBoolean(s)
  {
    assert ToLower(ToLower(s)) == ToLower(s);
  }

  /** The option's own entry, if it has one. */
  function Lookup(config: map<string, string>, k: string): Option<string> {
    if k in config then Some(config[k]) else None
  }

  /** The entry of k once every option of m has been checked against
      config, in any order. */
  function Validated(p: Platform, config: map<string, string>, m: ArgMap, k: string): Option<string> {
    if Some(k) in m && Outcome(p, config, k, m[Some(k)]).Some? then Outcome(p, config, k, m[Some(k)]) else Lookup(config, k)
  }

  /** The options of a configuration file as keys of the argument map. */
  function FileOptions(fm: map<string, string>): ArgMap {
    map k | k in fm :: Some(k) := fm[k]
  }

  /** The options parseArguments gives on the command line. */
  function CommandLine(args: seq<string>): ArgMap {
    ApplySegments(map[], Segments(args))
  }

  /** The configuration once a configFile option of the command line has
      been checked (and stored when accepted). */
  function AfterConfigFile(p: Platform, config: map<string, string>, args: seq<string>): map<string, string> {
    var m := CommandLine(args);
    if Some(ConfigFile) !in m then config
    else
      match Outcome(p, config, ConfigFile, m[Some(ConfigFile)])
      case None => config
      case Some(v) => config[ConfigFile := v]
  }

  /** The options checked one by one: the command line, or, when it names
      an accepted configuration file, that file's options overridden by
      the command line. */
  function OptionsToCheck(p: Platform, config: map<string, string>, args: seq<string>): ArgMap {
    var m := CommandLine(args);
    if Some(ConfigFile) !in m then m
    else
      var loaded := match Outcome(p, config, ConfigFile, m[Some(ConfigFile)])
        case None => None
        case Some(v) => p.configFiles(v);
      var withFile := if loaded.Some? then m + FileOptions(loaded.value) else m;
      ApplySegments(withFile, Segments(args))
  }

  /** An option given on the command line keeps its command-line value,
      whatever the configuration file says. */
  lemma CommandLineOverridesFile(p: Platform, config: map<string, string>, args: seq<string>, k: Option<string>)
    requires k in CommandLine(args)
    ensures k in OptionsToCheck(p, config, args) && OptionsToCheck(p, config, args)[k] == CommandLine(args)[k]
  {
    var segs := Segments(args);
    if forall i :: 0 <= i < |segs| ==> segs[i].key != k {
      ApplyUnmentioned(map[], segs, k);
      assert false;
    }
    var m := CommandLine(args);
    if Some(ConfigFile) in m {
      var loaded := match Outcome(p, config, ConfigFile, m[Some(ConfigFile)])
        case None => None
        case Some(v) => p.configFiles(v);
      var withFile := if loaded.Some? then m + FileOptions(loaded.value) else m;
      ApplyOverrides(withFile, map[], segs, k);
    }
  }

  class Madkit {
    const platform: Platform
    /** The own entries of madkitConfig (its defaults sit behind them). */
    var config: map<string, string>
    /** The launchAgent calls made so far. */
    var launched: seq<Launch>

    constructor(p: Platform)
      ensures platform == p && config == map[] && launched == []
    {
      platform := p;
      config := map[];
      launched := [];
    }

    /** modifyMadkitOption. */
    method ModifyMadkitOption(option: string, value: string)
      modifies this`config
      ensures config == old(config)[option := value]
    {
      config := config[option := value];
    }

    /** checkAndValidateOption: answers whether the option was stored. A
        null option or value is refused. */
    method CheckAndValidateOption(option: Option<string>, value: Option<string>) returns (changed: bool)
      modifies this`config
      ensures option.None? || value.None? ==> !changed && config == old(config)
      ensures option.Some? && value.Some? ==>
        changed == Outcome(platform, old(config), option.value, value.value).Some? &&
        config == if changed then old(config)[option.value := Outcome(platform, old(config), option.value, value.value).value] else old(config)
    {
      if option.None? || value.None? {
        return false;
      }
      var o, v := option.value, value.value;
      if o !in platform.defaults {
        ModifyMadkitOption(o, v);
        return true;
      }
      var kind := KindOf(o);
      var current := GetProperty(platform, config, o);
      if kind == LevelOption && current != v {
        var l := platform.levelName(v);
        if l.Some? {
          ModifyMadkitOption(o, l.value);
          return true;
        }
      }
      if kind == ConfigFileOption && !(v == "true" || v == "null" || v == "") {
        ModifyMadkitOption(o, v);
        return true;
      }
      if kind == LaunchAgentsOption && !(v == "true" || v == "null" || v == "") {
        if LaunchAgentsValueValid(v) {
          ModifyMadkitOption(o, v);
          return true;
        }
      }
      if kind == BooterOption {
        if v == "true" {
          return false;
        }
        if platform.loadable(v) {
          ModifyMadkitOption(o, v);
          return true;
        }
      }
      if kind == LogFileOption && current != v {
        ModifyMadkitOption(o, v);
        return true;
      }
      if kind == LogDirectoryOption && current != v {
        if !EndsWith(v, platform.separator) {
          v := v + platform.separator;
        }
        ModifyMadkitOption(o, v);
        return true;
      }
      if kind == BooleanOption && current != v {
        v := ToLower(Trim(v));
        if v == "true" || v == "false" {
          ModifyMadkitOption(o, v);
          return true;
        }
      }
      return false;
    }

    /** parseArguments: nothing happens without arguments. Otherwise the
        command line is read; a configFile option is checked first and the
        accepted file's options are read under the command line; then every
        option read is checked, in no particular order. */
    method ParseArguments(args: Option<seq<string>>)
      modifies this`config
      ensures args.None? ==> config == old(config)
      ensures args.Some? ==>
        forall k :: Lookup(config, k) ==
          Validated(platform, AfterConfigFile(platform, old(config), args.value), OptionsToCheck(platform, old(config), args.value), k)
    {
      if args.None? {
        return;
      }
      ghost var initial := config;
      var arguments := ParseArgumentsIntoMap(args.value, map[]);
      if Some(ConfigFile) in arguments {
        var accepted := CheckAndValidateOption(Some(ConfigFile), Some(arguments[Some(ConfigFile)]));
        if accepted {
          var loaded := platform.configFiles(GetProperty(platform, config, ConfigFile));
          if loaded.Some? {
            arguments := arguments + FileOptions(loaded.value);
          }
        }
        arguments := ParseArgumentsIntoMap(args.value, arguments);
      }
      assert arguments == OptionsToCheck(platform, initial, args.value);
      assert config == AfterConfigFile(platform, initial, args.value);
      CheckAll(arguments);
    }

    /** The loop of parseArguments: every entry of the map is checked once,
        in an order the map does not fix. */
    method CheckAll(arguments: ArgMap)
      modifies this`config
      ensures forall k :: Lookup(config, k) == Validated(platform, old(config), arguments, k)
    {
      var todo := arguments.Keys;
      while todo != {}
        invariant todo <= arguments.Keys
        invariant forall k :: Some(k) in todo ==> Lookup(config, k) == Lookup(old(config), k)
        invariant forall k :: Some(k) !in todo ==> Lookup(config, k) == Validated(platform, old(config), arguments, k)
        decreases |todo|
      {
        var key :| key in todo;
        if key.Some? {
          OutcomeLocal(platform, config, old(config), key.value, arguments[key]);
        }
        var changed := CheckAndValidateOption(key, Some(arguments[key]));
        todo := todo - {key};
      }
    }

    /** launchConfigAgents: each entry of the launchAgents option is read
        and its agents launched, in order, until an entry cannot be read;
        that entry's error is answered. */
    method LaunchConfigAgents() returns (failure: Option<LaunchError>)
      requires LaunchAgents in config || LaunchAgents in platform.defaults
      modifies this`launched
      ensures failure == FirstFailure(LaunchPlan(GetProperty(platform, config, LaunchAgents)))
      ensures launched == old(launched) + Launches(ParsedPrefix(LaunchPlan(GetProperty(platform, config, LaunchAgents))))
    {
      var agentsToLaunch := GetProperty(platform, config, LaunchAgents);
      if agentsToLaunch != "null" {
        var agentsClasses := Split(agentsToLaunch, ';');
        var read := ReadEntries(agentsClasses);
        failure := LaunchEach(read);
      } else {
        failure := None;
      }
    }

    /** The loop over the entries of launchConfigAgents, given what reading
        each entry gives: launch the agents of each entry in turn and stop
        at the first entry that cannot be read. */
    method LaunchEach(rs: seq<Result<LaunchEntry>>) returns (failure: Option<LaunchError>)
      modifies this`launched
      ensures failure == FirstFailure(rs)
      ensures launched == old(launched) + Launches(ParsedPrefix(rs))
    {
      ghost var done: seq<LaunchEntry> := [];
      var i := 0;
      while i < |rs|
        invariant i <= |rs| && |done| == i
        invariant forall j :: 0 <= j < i ==> rs[j].Ok? && done[j] == rs[j].value
        invariant launched == old(launched) + Launches(done)
      {
        var entry := rs[i];
        if entry.Err? {
          StoppedAt(rs, i, done);
          return Some(entry.error);
        }
        LaunchesStep(done, entry.value);
        LaunchInstances(entry.value);
        done := done + [entry.value];
        i := i + 1;
      }
      ReadThrough(rs, done);
      failure := None;
    }

    /** The inner loop of launchConfigAgents: one launch per instance. */
    method LaunchInstances(e: LaunchEntry)
      modifies this`launched
      ensures launched == old(launched) + Repeat(Launch(e.className, e.withGUI), e.instances)
    {
      var i := 0;
      while i < e.instances
        invariant 0 <= i && (e.instances > 0 ==> i <= e.instances) && (e.instances <= 0 ==> i == 0)
        invariant launched == old(launched) + Repeat(Launch(e.className, e.withGUI), i)
      {
        launched := launched + [Launch(e.className, e.withGUI)];
        i := i + 1;
      }
    }
  }

  /** Every entry read, in order. */
  method ReadEntries(entries: seq<string>) returns (rs: seq<Result<LaunchEntry>>)
    ensures rs == ReadAll(entries)
  {
    rs := [];
    var i := 0;
    while i < |entries|
      invariant i <= |entries| && rs == ReadAll(entries[..i])
    {
      var r := ParseLaunchEntry(entries[i]);
      MapSeqStep(ParseLaunchEntry, entries, i);
      rs := rs + [r];
      i := i + 1;
    }
    assert entries[..i] == entries;
  }
}
