/**
 * The analyzer pop-up of the packaged application: it turns the three text fields into
 * the analyzer's argument vector and starts the executable. The window, the message
 * boxes and the process itself are not modelled: whether the executable exists and
 * how the run ends are inputs, and the command is an output.
 */
module AnalyzerWindow {
  import opened Wrappers
  import opened Events
  import opened Text
  import opened LogAnalyzer

  const TypeFlag: string := "--type"
  const DateFlag: string := "--date"
  const KeywordFlag: string := "--keyword"

  /** The flag/value pair a field contributes: nothing when the field is empty. */
  function Pair(flag: string, value: string): seq<string> {
    if value == [] then [] else [flag, value]
  }

  /** The command `runRustAnalysis` runs for the executable `exe` and the three fields. */
  function Command(exe: string, logType: string, dateFilter: string, keyword: string): seq<string> {
    [exe] + Pair(TypeFlag, logType) + Pair(DateFlag, dateFilter) + Pair(KeywordFlag, keyword)
  }

  /** How many of the three fields are filled in. */
  function Filled(logType: string, dateFilter: string, keyword: string): nat {
    (if logType == [] then 0 else 1) + (if dateFilter == [] then 0 else 1) + (if keyword == [] then 0 else 1)
  }

  /** The field a flag carries. */
  function FieldOf(flag: string, logType: string, dateFilter: string, keyword: string): string {
    if flag == TypeFlag then logType else if flag == DateFlag then dateFilter else keyword
  }

  /** The flags of the filled fields, in the fixed order. */
  function FilledFlags(logType: string, dateFilter: string, keyword: string): seq<string> {
    (if logType == [] then [] else [TypeFlag])
    + (if dateFilter == [] then [] else [DateFlag])
    + (if keyword == [] then [] else [KeywordFlag])
  }

  /** The command starts with the executable and then holds one flag/value pair per
      filled field: two more entries per field, the flags of the filled fields in the
      fixed order type, date, keyword, each followed by the field it names, and no empty
      value. */
  lemma CommandShape(exe: string, logType: string, dateFilter: string, keyword: string)
    ensures var cmd := Command(exe, logType, dateFilter, keyword);
      && cmd[0] == exe
      && |cmd| == 1 + 2 * Filled(logType, dateFilter, keyword)
      && |FilledFlags(logType, dateFilter, keyword)| == Filled(logType, dateFilter, keyword)
      && (forall j :: 0 <= j < Filled(logType, dateFilter, keyword) ==>
            cmd[2 * j + 1] == FilledFlags(logType, dateFilter, keyword)[j]
            && cmd[2 * j + 2] == FieldOf(cmd[2 * j + 1], logType, dateFilter, keyword)
            && cmd[2 * j + 2] != [])
  {
    var t, d, k := logType, dateFilter, keyword;
    var cmd := Command(exe, t, d, k);
    if t == [] && d == [] && k == [] {
      assert cmd == [exe];
    } else if t == [] && d == [] {
      assert cmd == [exe, KeywordFlag, k];
    } else if t == [] && k == [] {
      assert cmd == [exe, DateFlag, d];
    } else if d == [] && k == [] {
      assert cmd == [exe, TypeFlag, t];
    } else if t == [] {
      assert cmd == [exe, DateFlag, d, KeywordFlag, k];
    } else if d == [] {
      assert cmd == [exe, TypeFlag, t, KeywordFlag, k];
    } else if k == [] {
      assert cmd == [exe, TypeFlag, t, DateFlag, d];
    } else {
      assert cmd == [exe, TypeFlag, t, DateFlag, d, KeywordFlag, k];
    }
  }

  /** The successive `extend` calls of `runRustAnalysis` building the command. */
  method BuildCommand(exe: string, logType: string, dateFilter: string, keyword: string) returns (cmd: seq<string>)
    ensures cmd == Command(exe, logType, dateFilter, keyword)
  {
    cmd := [exe];
    if logType != [] {
      cmd := cmd + [TypeFlag, logType];
    }
    if dateFilter != [] {
      cmd := cmd + [DateFlag, dateFilter];
    }
    if keyword != [] {
      cmd := cmd + [KeywordFlag, keyword];
    }
  }

  /** `' '.join(words)`. */
  function JoinSpaces(words: seq<string>): string {
    if |words| == 0 then [] else if |words| == 1 then words[0] else words[0] + " " + JoinSpaces(words[1..])
  }

  /** How `subprocess.run(cmd, check=True)` ends: the analyzer exits with status 0, it exits
      with another status (`CalledProcessError`, caught), or the process cannot be started at
      all (`OSError`, for instance a file that exists but cannot be executed, not caught). */
  datatype RunOutcome = Completed | ExitFailed(error: string) | StartFailed

  /** `runRustAnalysis`: when the executable is missing, logs the error and returns
      without building or running a command; otherwise hands the command to the process
      runner and logs that it ran, or that it failed with a non-zero exit. An `OSError`
      from starting the process escapes the method (`escaped`) with nothing logged. */
  method RunRustAnalysis(exe: string, exeExists: bool, logType: string, dateFilter: string, keyword: string, outcome: RunOutcome)
    returns (ran: Option<seq<string>>, log: seq<Event>, escaped: bool)
    ensures !exeExists ==> ran.None? && log == [Log(Level.Error, "Executable not found: " + exe)] && !escaped
    ensures exeExists ==> ran == Some(Command(exe, logType, dateFilter, keyword))
    ensures escaped <==> exeExists && outcome.StartFailed?
    ensures exeExists && outcome.Completed? ==> log == [Log(Level.Info, "Log analysis ran with: " + JoinSpaces(ran.value))]
    ensures exeExists && outcome.ExitFailed? ==> log == [Log(Level.Error, "Log analysis failed: " + outcome.error)]
    ensures escaped ==> log == []
  {
    if !exeExists {
      return None, [Log(Level.Error, "Executable not found: " + exe)], false;
    }
    var cmd := BuildCommand(exe, logType, dateFilter, keyword);
    ran := Some(cmd);
    match outcome {
      case Completed =>
        log, escaped := [Log(Level.Info, "Log analysis ran with: " + JoinSpaces(cmd))], false;
      case ExitFailed(e) =>
        log, escaped := [Log(Level.Error, "Log analysis failed: " + e)], false;
      case StartFailed =>
        log, escaped := [], true;
    }
  }

  // ---------------------------------------------------------------- the two sides together

  /** The filters the window's fields stand for. */
  function Intended(logType: string, dateFilter: string, keyword: string): Filters {
    Filters(if logType == [] then None else ParseType(logType),
            if dateFilter == [] then None else Some(dateFilter),
            if keyword == [] then None else Some(keyword))
  }

  /** The analyzer reads its arguments by position, so a level typed into the window never
      filters by level: "--type" sits where the level is read and selects no level, and
      the level itself becomes the date filter. */
  lemma FlagsMisparsed(exe: string, logType: string, dateFilter: string, keyword: string)
    requires logType != []
    ensures ParseArgs(Command(exe, logType, dateFilter, keyword)).logType == None
    ensures ParseArgs(Command(exe, logType, dateFilter, keyword)).date == Some(logType)
  {
    assert Command(exe, logType, dateFilter, keyword)[1] == TypeFlag;
    assert Lower(TypeFlag) == TypeFlag;
  }

  /** With only a keyword entered, the analyzer reads "--keyword" as its level (no filter)
      and the keyword as its date filter, and applies no keyword filter. */
  lemma KeywordOnlyMisparsed(exe: string, keyword: string)
    requires keyword != []
    ensures ParseArgs(Command(exe, "", "", keyword)) == Filters(None, Some(keyword), None)
  {
    var cmd := Command(exe, "", "", keyword);
    assert cmd == [exe, KeywordFlag, keyword];
    assert ParseType(KeywordFlag) == None by {
      assert Lower(KeywordFlag)[0] == '-';
    }
    assert ParseArgs(cmd) == Filters(ParseType(cmd[1]), Some(cmd[2]), None);
  }

  /** The window's "ERROR" level is read as a date filter and no level filter. */
  lemma ErrorLevelMisparsed()
    ensures Intended("ERROR", "", "") == Filters(Some(LogType.Error), None, None)
    ensures ParseArgs(Command("log_analyzer.exe", "ERROR", "", "")) == Filters(None, Some("ERROR"), None)
  {
    ParseTypeOfLevels();
    FlagsMisparsed("log_analyzer.exe", "ERROR", "", "");
  }

  /** One flag/value pair at the front of the arguments sets its filter. */
  lemma ParsePairsCons(flag: string, value: string, rest: seq<string>, f: Filters)
    requires flag in {TypeFlag, DateFlag, KeywordFlag}
    ensures ParsePairs([flag, value] + rest, f) ==
      ParsePairs(rest, if flag == TypeFlag then f.(logType := ParseType(value))
                       else if flag == DateFlag then f.(date := Some(value))
                       else f.(keyword := Some(value)))
  {
    assert ([flag, value] + rest)[2..] == rest;
  }

  /** Read as flag/value pairs, the command the window builds gives back exactly the
      filters its fields stand for. */
  lemma FlagsRoundTrip(exe: string, logType: string, dateFilter: string, keyword: string)
    ensures ParseFlags(Command(exe, logType, dateFilter, keyword)) == Intended(logType, dateFilter, keyword)
  {
    var p, q, r := Pair(TypeFlag, logType), Pair(DateFlag, dateFilter), Pair(KeywordFlag, keyword);
    var f1 := if logType == [] then NoFilters else NoFilters.(logType := ParseType(logType));
    var f2 := if dateFilter == [] then f1 else f1.(date := Some(dateFilter));
    var f3 := if keyword == [] then f2 else f2.(keyword := Some(keyword));
    assert Command(exe, logType, dateFilter, keyword)[1..] == p + (q + r);
    if logType != [] {
      ParsePairsCons(TypeFlag, logType, q + r, NoFilters);
    } else {
      assert p + (q + r) == q + r;
    }
    if dateFilter != [] {
      ParsePairsCons(DateFlag, dateFilter, r, f1);
    } else {
      assert q + r == r;
    }
    if keyword != [] {
      ParsePairsCons(KeywordFlag, keyword, [], f2);
      assert r == [KeywordFlag, keyword] + [];
    }
    assert ParsePairs(r, f2) == f3;
  }
}
