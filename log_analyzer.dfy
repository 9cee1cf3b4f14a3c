/**
 * The command-line log analyzer: it classifies log lines by their level prefix, keeps
 * the lines that pass up to three optional filters, and counts them by level. The
 * worker threads that share the counters are modelled as one sequential fold, and the
 * fold is shown not to depend on the order the lines reach it.
 */
module LogAnalyzer {
  import opened Wrappers
  import opened Text

  datatype LogType = Info | Warn | Error | Other

  /** The three optional filters: level, date substring and keyword. */
  datatype Filters = Filters(logType: Option<LogType>, date: Option<string>, keyword: Option<string>)

  const NoFilters := Filters(None, None, None)

  /** `classifyLine`: the level named by the line's prefix, tried INFO, WARN, ERROR; since
      no two of the prefixes can start the same line, each level holds exactly when its
      own prefix starts the line. */
  function ClassifyLine(line: string): (t: LogType)
    ensures t == Info <==> "INFO" <= line
    ensures t == Warn <==> "WARN" <= line
    ensures t == Error <==> "ERROR" <= line
    ensures t == Other <==> !("INFO" <= line) && !("WARN" <= line) && !("ERROR" <= line)
  {
    PrefixesDisjoint(line);
    if "INFO" <= line then Info
    else if "WARN" <= line then Warn
    else if "ERROR" <= line then Error
    else Other
  }

  /** The three level prefixes start with different letters. */
  lemma PrefixesDisjoint(line: string)
    ensures "INFO" <= line ==> line[0] == 'I'
    ensures "WARN" <= line ==> line[0] == 'W'
    ensures "ERROR" <= line ==> line[0] == 'E'
  {
    if "INFO" <= line { assert "INFO"[0] == line[0]; }
    if "WARN" <= line { assert "WARN"[0] == line[0]; }
    if "ERROR" <= line { assert "ERROR"[0] == line[0]; }
  }

  /** A line's level is decided by its first characters alone. */
  lemma ClassifyByPrefix(rest: string)
    ensures ClassifyLine("INFO" + rest) == Info
    ensures ClassifyLine("WARN" + rest) == Warn
    ensures ClassifyLine("ERROR" + rest) == Error
  {
    assert ("INFO" + rest)[..4] == "INFO";
    assert ("WARN" + rest)[..4] == "WARN";
    assert ("ERROR" + rest)[..5] == "ERROR";
  }

  /** `filterLine`: the conjunction of the level test, the case-sensitive date substring
      test and the case-insensitive keyword substring test; an absent filter passes. */
  predicate FilterLine(line: string, logType: Option<LogType>, dateFilter: Option<string>, keyword: Option<string>) {
    var matchesType := match logType { case Some(t) => ClassifyLine(line) == t case None => true };
    var matchesDate := match dateFilter { case Some(d) => Contains(line, d) case None => true };
    var matchesKeyword := match keyword { case Some(k) => Contains(Lower(line), Lower(k)) case None => true };
    matchesType && matchesDate && matchesKeyword
  }

  predicate Accepts(f: Filters, line: string) {
    FilterLine(line, f.logType, f.date, f.keyword)
  }

  /** `g` is `f` with some of its filters dropped. */
  predicate Loosens(f: Filters, g: Filters) {
    && (g.logType.None? || g.logType == f.logType)
    && (g.date.None? || g.date == f.date)
    && (g.keyword.None? || g.keyword == f.keyword)
  }

  /** Without filters every line passes; dropping a filter never rejects a line that
      passed; and a filter of the empty string passes every line, like no filter. */
  lemma FilterLooser(f: Filters, g: Filters, line: string)
    requires Loosens(f, g)
    ensures Accepts(NoFilters, line)
    ensures Accepts(f, line) ==> Accepts(g, line)
    ensures Accepts(f.(date := Some([])), line) == Accepts(f.(date := None), line)
    ensures Accepts(f.(keyword := Some([])), line) == Accepts(f.(keyword := None), line)
  {
    ContainsEmpty(line);
    ContainsEmpty(Lower(line));
    assert Lower([]) == [];
  }

  // ---------------------------------------------------------------- case folding

  function UpperChar(c: char): char {
    if 'a' <= c <= 'z' then (c as int - 32) as char else c
  }

  function Upper(s: string): (r: string)
    ensures |r| == |s| && forall k :: 0 <= k < |s| ==> r[k] == UpperChar(s[k])
  {
    if s == [] then [] else [UpperChar(s[0])] + Upper(s[1..])
  }

  /** Lower-casing forgets the case a string was written in. */
  lemma LowerForgetsCase(s: string)
    ensures Lower(Lower(s)) == Lower(s)
    ensures Lower(Upper(s)) == Lower(s)
  {
    assert forall k :: 0 <= k < |s| ==> Lower(Lower(s))[k] == Lower(s)[k];
    assert forall k :: 0 <= k < |s| ==> Lower(Upper(s))[k] == Lower(s)[k];
  }

  /** The keyword filter ignores case on both sides: writing the keyword, or the line, in
      upper or lower case selects the same lines. */
  lemma KeywordIgnoresCase(line: string, k: string)
    ensures Accepts(Filters(None, None, Some(k)), line) == Accepts(Filters(None, None, Some(Upper(k))), line)
    ensures Accepts(Filters(None, None, Some(k)), line) == Accepts(Filters(None, None, Some(Lower(k))), line)
    ensures Accepts(Filters(None, None, Some(k)), line) == Accepts(Filters(None, None, Some(k)), Upper(line))
  {
    LowerForgetsCase(k);
    LowerForgetsCase(line);
  }

  // ---------------------------------------------------------------- the filtered lines

  /** The lines of `lines` that pass `f`, in order. */
  function Filtered(lines: seq<string>, f: Filters): (r: seq<string>)
    ensures |r| <= |lines|
    ensures forall x :: x in r <==> x in lines && Accepts(f, x)
  {
    if lines == [] then []
    else
      var last := lines[|lines| - 1];
      var front := lines[..|lines| - 1];
      assert lines == front + [last];
      Filtered(front, f) + (if Accepts(f, last) then [last] else [])
  }

  /** Dropping filters keeps every line that was kept before, as often as before. */
  lemma {:induction false} FilteredLooser(lines: seq<string>, f: Filters, g: Filters)
    requires Loosens(f, g)
    ensures multiset(Filtered(lines, f)) <= multiset(Filtered(lines, g))
    ensures |Filtered(lines, f)| <= |Filtered(lines, g)|
  {
    if lines != [] {
      var last := lines[|lines| - 1];
      FilteredLooser(lines[..|lines| - 1], f, g);
      FilterLooser(f, g, last);
      assert multiset(Filtered(lines, f)) <= multiset(Filtered(lines, g));
      assert |multiset(Filtered(lines, f))| <= |multiset(Filtered(lines, g))|;
    }
  }

  // ---------------------------------------------------------------- counting

  /** The shared counters: lines of each level and lines processed. */
  datatype Counts = Counts(info: nat, warn: nat, error: nat, total: nat)

  const Zero := Counts(0, 0, 0, 0)

  /** One line through `worker`: its level's counter and the total go up by one. */
  function Count(c: Counts, line: string): Counts {
    match ClassifyLine(line)
    case Info => c.(info := c.info + 1, total := c.total + 1)
    case Warn => c.(warn := c.warn + 1, total := c.total + 1)
    case Error => c.(error := c.error + 1, total := c.total + 1)
    case Other => c.(total := c.total + 1)
  }

  /** The counters after every line of `lines` went through a worker, in order. */
  function Tally(lines: seq<string>): Counts {
    if lines == [] then Zero else Count(Tally(lines[..|lines| - 1]), lines[|lines| - 1])
  }

  function Plus(a: Counts, b: Counts): Counts {
    Counts(a.info + b.info, a.warn + b.warn, a.error + b.error, a.total + b.total)
  }

  function TypeOnly(t: LogType): Filters {
    Filters(Some(t), None, None)
  }

  /** Each counter is the number of lines of its level, the total is the number of lines,
      and so the three level counters never exceed the total. */
  lemma {:induction false} TallyCounts(lines: seq<string>)
    ensures Tally(lines).info == |Filtered(lines, TypeOnly(Info))|
    ensures Tally(lines).warn == |Filtered(lines, TypeOnly(Warn))|
    ensures Tally(lines).error == |Filtered(lines, TypeOnly(Error))|
    ensures Tally(lines).total == |lines|
    ensures Tally(lines).info + Tally(lines).warn + Tally(lines).error
            + |Filtered(lines, TypeOnly(Other))| == Tally(lines).total
  {
    if lines != [] {
      TallyCounts(lines[..|lines| - 1]);
    }
  }

  /** Counting one more line after a batch is counting it after the batch's counts. */
  lemma CountPlus(a: Counts, c: Counts, y: string)
    ensures Count(Plus(a, c), y) == Plus(a, Count(c, y))
  {
  }

  /** Counting two batches one after the other adds their counts. */
  lemma {:induction false} TallyAppend(a: seq<string>, b: seq<string>)
    ensures Tally(a + b) == Plus(Tally(a), Tally(b))
  {
    if b == [] {
      assert a + b == a;
      assert Tally(b) == Zero;
    } else {
      var b', y := b[..|b| - 1], b[|b| - 1];
      assert (a + b)[..|a + b| - 1] == a + b';
      assert (a + b)[|a + b| - 1] == y;
      assert Tally(a + b) == Count(Tally(a + b'), y);
      assert Tally(b) == Count(Tally(b'), y);
      TallyAppend(a, b');
      CountPlus(Tally(a), Tally(b'), y);
    }
  }

  /** The counts do not depend on the order the workers take the lines in: any
      rearrangement of the lines gives the same counters. */
  lemma {:induction false} TallyPermutation(a: seq<string>, b: seq<string>)
    requires multiset(a) == multiset(b)
    ensures Tally(a) == Tally(b)
    decreases |a|
  {
    if a == [] {
      assert |b| == |multiset(b)| == 0;
    } else {
      var y := a[|a| - 1];
      var a' := a[..|a| - 1];
      assert a == a' + [y];
      assert y in multiset(b);
      var i :| 0 <= i < |b| && b[i] == y;
      var l, r := b[..i], b[i + 1..];
      assert b == l + [y] + r;
      RemoveOne(a', y, l, r);
      TallyPermutation(a', l + r);
      TallyRemove(l, y, r);
      assert Tally(a) == Count(Tally(a'), y);
    }
  }

  /** Counting a line in the middle of a batch is counting it last. */
  lemma TallyRemove(l: seq<string>, y: string, r: seq<string>)
    ensures Tally(l + [y] + r) == Count(Tally(l + r), y)
  {
    TallyAppend(l + [y], r);
    TallyAppend(l, r);
    assert (l + [y])[..|l + [y]| - 1] == l;
    assert Tally(l + [y]) == Count(Tally(l), y);
    CountPlusLeft(Tally(l), Tally(r), y);
  }

  lemma CountPlusLeft(a: Counts, c: Counts, y: string)
    ensures Count(Plus(a, c), y) == Plus(Count(a, y), c)
  {
  }

  /** Taking the same line out of two rearrangements of each other leaves two
      rearrangements of each other. */
  lemma RemoveOne(a: seq<string>, y: string, l: seq<string>, r: seq<string>)
    requires multiset(a + [y]) == multiset(l + [y] + r)
    ensures multiset(a) == multiset(l + r)
  {
    assert multiset(a + [y]) == multiset(a) + multiset{y};
    assert multiset(l + [y] + r) == multiset(l + r) + multiset{y};
    forall e ensures multiset(a)[e] == multiset(l + r)[e] {
      assert (multiset(a) + multiset{y})[e] == (multiset(l + r) + multiset{y})[e];
    }
  }

  /** `worker` draining a channel that delivers `lines`: the four counters, updated per
      line by its level. */
  method Worker(lines: seq<string>) returns (counts: Counts)
    ensures counts == Tally(lines)
  {
    var info, warn, error, total := 0, 0, 0, 0;
    for i := 0 to |lines|
      invariant Counts(info, warn, error, total) == Tally(lines[..i])
    {
      assert lines[..i + 1][..i] == lines[..i];
      match ClassifyLine(lines[i]) {
        case Info => info := info + 1;
        case Warn => warn := warn + 1;
        case Error => error := error + 1;
        case Other =>
      }
      total := total + 1;
    }
    assert lines[..|lines|] == lines;
    counts := Counts(info, warn, error, total);
  }

  // ---------------------------------------------------------------- main

  /** The lower-case names the level argument is compared with. */
  function TypeName(t: LogType): string {
    match t
    case Info => "info"
    case Warn => "warn"
    case Error => "error"
    case Other => "other"
  }

  /** The level argument, lower-cased: "info", "warn" or "error" select that level and
      anything else selects no level filter; "other" is never selected. */
  function ParseType(s: string): (t: Option<LogType>)
    ensures t != Some(Other)
    ensures t.Some? <==> Lower(s) in {"info", "warn", "error"}
    ensures t.Some? ==> Lower(s) == TypeName(t.value)
  {
    match Lower(s)
    case "info" => Some(Info)
    case "warn" => Some(Warn)
    case "error" => Some(Error)
    case _ => None
  }

  /** A level argument is recognised in any mix of case. */
  lemma ParseTypeIgnoresCase(s: string)
    ensures ParseType(Upper(s)) == ParseType(s)
  {
    LowerForgetsCase(s);
  }

  /** The level names as the log writes them select their levels. */
  lemma ParseTypeOfLevels()
    ensures ParseType("INFO") == Some(Info)
    ensures ParseType("WARN") == Some(Warn)
    ensures ParseType("ERROR") == Some(Error)
  {
    assert Lower("INFO") == "info";
    assert Lower("WARN") == "warn";
    assert Lower("ERROR") == "error";
  }

  /** `main`'s argument handling: the level from argument 1, the date from argument 2 and
      the keyword from argument 3, each by position, absent when the argument is. */
  function ParseArgs(args: seq<string>): (f: Filters)
    ensures f.logType.Some? <==> |args| > 1 && Lower(args[1]) in {"info", "warn", "error"}
    ensures f.date.Some? <==> |args| > 2
    ensures f.keyword.Some? <==> |args| > 3
    ensures |args| > 2 ==> f.date.value == args[2]
    ensures |args| > 3 ==> f.keyword.value == args[3]
  {
    Filters(if |args| > 1 then ParseType(args[1]) else None,
            if |args| > 2 then Some(args[2]) else None,
            if |args| > 3 then Some(args[3]) else None)
  }

  /** Argument vectors in the `--type T --date D --keyword K` form the analyzer window
      builds: each flag sets the next argument as its filter, in any order; an unknown
      flag and its value are skipped. */
  function ParseFlags(args: seq<string>): Filters {
    if |args| == 0 then NoFilters else ParsePairs(args[1..], NoFilters)
  }

  function ParsePairs(rest: seq<string>, f: Filters): Filters
    decreases |rest|
  {
    if |rest| < 2 then f
    else
      var g :=
        if rest[0] == "--type" then f.(logType := ParseType(rest[1]))
        else if rest[0] == "--date" then f.(date := Some(rest[1]))
        else if rest[0] == "--keyword" then f.(keyword := Some(rest[1]))
        else f;
      ParsePairs(rest[2..], g)
  }

  /** What `main` prints at the end: the lines sent to the workers and the counters. */
  datatype Summary = Summary(printed: seq<string>, totalLines: nat, counts: Counts)

  /** `main` after its arguments are parsed into `f`: fails when the log file cannot be
      opened; otherwise prints and counts the lines that pass `f`, in file order, and the
      workers' counters agree with the number of lines sent. */
  method Analyze(f: Filters, file: Option<seq<string>>) returns (result: Option<Summary>)
    ensures file.None? ==> result.None?
    ensures file.Some? ==> result.Some? && result.value.printed == Filtered(file.value, f)
    ensures result.Some? ==> result.value.totalLines == |result.value.printed|
    ensures result.Some? ==> result.value.counts == Tally(result.value.printed)
    ensures result.Some? ==> result.value.counts.total == result.value.totalLines
  {
    if file.None? {
      return None;
    }
    var lines := file.value;
    var sent: seq<string> := [];
    var totalLines := 0;
    for i := 0 to |lines|
      invariant sent == Filtered(lines[..i], f)
      invariant totalLines == |sent|
    {
      assert lines[..i + 1][..i] == lines[..i];
      if FilterLine(lines[i], f.logType, f.date, f.keyword) {
        sent := sent + [lines[i]];
        totalLines := totalLines + 1;
      }
    }
    assert lines[..|lines|] == lines;
    var counts := Worker(sent);
    TallyCounts(sent);
    result := Some(Summary(sent, totalLines, counts));
  }
}
