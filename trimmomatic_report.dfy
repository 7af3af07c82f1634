/** trimmomatic_report.py: the trimming totals of each sample read from
    Trimmomatic's trim log, and the CSV report over all samples. */
module TrimmomaticReport {
  import opened Wrappers
  import opened Strings
  import opened Numbers
  import opened OrderedDicts

  // ---------------------------------------------------------------------
  // parse_log

  /** The running counters of `parse_log`'s `template`. */
  datatype Counters = Counters(cleanLen: int, totalTrim: int, fiveTrim: int, threeTrim: int)

  /** The `template` dictionary `parse_log` returns; its keys, in order, are
      `StatKeys`. */
  datatype TrimStats = TrimStats(cleanLen: int, totalTrim: int, totalTrimPerc: real, fiveTrim: int, threeTrim: int)

  const StatKeys: seq<string> := ["clean_len", "total_trim", "total_trim_perc", "5trim", "3trim"]

  const NoCounts := Counters(0, 0, 0, 0)

  /** `int(x)` on one token. */
  function IntField(t: string): Result<int> {
    match ParseInt(t)
    case None => Err(ValueError)
    case Some(n) => Ok(n)
  }

  /** The last (at most) four whitespace tokens of a line; `split()` already
      ignores the whitespace `strip()` would remove. */
  function LastFour(tokens: seq<string>): (r: seq<string>)
    ensures |r| == if |tokens| < 4 then |tokens| else 4
  {
    var n := |tokens|;
    if n <= 4 then tokens else [tokens[n - 4], tokens[n - 3], tokens[n - 2], tokens[n - 1]]
  }

  /** `[int(x) for x in tokens]`: the first token that is not an integer
      raises ValueError. */
  function IntFields(tokens: seq<string>): (r: Result<seq<int>>)
    ensures r.Ok? ==> |r.value| == |tokens|
    decreases |tokens|
  {
    if tokens == [] then Ok([])
    else
      match IntField(tokens[0])
      case Err(e) => Err(e)
      case Ok(v) =>
        match IntFields(tokens[1..])
        case Err(e) => Err(e)
        case Ok(vs) => Ok([v] + vs)
  }

  /** `[int(x) for x in line.strip().split()[-4:]]` */
  function LogFields(line: string): Result<seq<int>> {
    IntFields(LastFour(SplitWs(line)))
  }

  /** One line of the loop: `fields[1]` and `fields[3]` need four fields. */
  function AddLine(c: Counters, line: string): Result<Counters> {
    match LogFields(line)
    case Err(e) => Err(e)
    case Ok(f) =>
      if |f| < 4 then Err(IndexError)
      else Ok(Counters(c.cleanLen + f[0], c.totalTrim + f[1] + f[3], c.fiveTrim + f[1], c.threeTrim + f[3]))
  }

  /** The counters after the loop over the log's lines, or the exception
      that stops it. */
  function Totals(lines: seq<string>): Result<Counters> {
    FoldResult(NoCounts, lines, AddLine)
  }

  /** `total_trim` is the sum of the two trims. */
  predicate Balanced(c: Counters) {
    c.totalTrim == c.fiveTrim + c.threeTrim
  }

  /** ... and stays so after every line. */
  lemma {:induction false} TotalsBalanced(lines: seq<string>)
    ensures Totals(lines).Ok? ==> Balanced(Totals(lines).value)
  {
    forall c: Counters, line: string | Balanced(c) && AddLine(c, line).Ok?
      ensures Balanced(AddLine(c, line).value)
    {
      AddLineBalanced(c, line);
    }
    FoldResultInvariant(NoCounts, lines, AddLine, Balanced);
  }

  lemma {:induction false} AddLineBalanced(c: Counters, line: string)
    requires Balanced(c) && AddLine(c, line).Ok?
    ensures Balanced(AddLine(c, line).value)
  {
  }

  /** `round(total_trim / total_len * 100, 2)` */
  function TrimPercentage(c: Counters): Result<real> {
    var totalLen := c.cleanLen + c.totalTrim;
    if totalLen == 0 then Err(ZeroDivisionError)
    else Ok(Round2(Share(c.totalTrim, totalLen) * 100.0))
  }

  function Share(part: int, whole: int): real
    requires whole != 0
  {
    part as real / whole as real
  }

  /** `parse_log` over the log's lines. */
  function LogStats(lines: seq<string>): Result<TrimStats> {
    match Totals(lines)
    case Err(e) => Err(e)
    case Ok(c) =>
      match TrimPercentage(c)
      case Err(e) => Err(e)
      case Ok(p) => Ok(TrimStats(c.cleanLen, c.totalTrim, p, c.fiveTrim, c.threeTrim))
  }

  /** `parse_log`: the counters are incremented line by line. */
  method ParseLog(lines: seq<string>) returns (r: Result<TrimStats>)
    ensures r == LogStats(lines)
  {
    var c := NoCounts;
    var i := 0;
    assert lines[..0] == [];
    while i < |lines|
      invariant 0 <= i <= |lines|
      invariant Totals(lines[..i]) == Ok(c)
    {
      FoldResultStep(NoCounts, lines, i, AddLine);
      var next := CountLine(c, lines[i]);
      if next.Err? {
        return Err(next.error);
      }
      c := next.value;
      i := i + 1;
    }
    assert lines[..i] == lines;
    var totalLen := c.cleanLen + c.totalTrim;
    if totalLen == 0 {
      return Err(ZeroDivisionError);
    }
    r := Ok(TrimStats(c.cleanLen, c.totalTrim, Round2(Share(c.totalTrim, totalLen) * 100.0), c.fiveTrim, c.threeTrim));
  }

  /** The body of `parse_log`'s loop. */
  method CountLine(c: Counters, line: string) returns (r: Result<Counters>)
    ensures r == AddLine(c, line)
  {
    var fields := LogFields(line);
    if fields.Err? {
      return Err(fields.error);
    }
    var f := fields.value;
    if |f| < 4 {
      return Err(IndexError);
    }
    r := Ok(Counters(c.cleanLen + f[0], c.totalTrim + f[1] + f[3], c.fiveTrim + f[1], c.threeTrim + f[3]));
  }

  /** A log line whose last four whitespace-separated tokens are integers
      written out with `str` adds them: the first to `clean_len`, the second
      to `5trim`, the fourth to `3trim`, and the second and fourth to
      `total_trim`; the third is read but not counted. */
  lemma {:induction false} AddLineOfIntegers(c: Counters, line: string, a: int, b: int, s: int, d: int)
    requires |SplitWs(line)| >= 4
    requires SplitWs(line)[|SplitWs(line)| - 4..] == [IntToString(a), IntToString(b), IntToString(s), IntToString(d)]
    ensures AddLine(c, line) == Ok(Counters(c.cleanLen + a, c.totalTrim + b + d, c.fiveTrim + b, c.threeTrim + d))
  {
    var t := SplitWs(line);
    var n := |t|;
    assert t[n - 4] == IntToString(a) && t[n - 3] == IntToString(b) by {
      assert t[n - 4..][0] == t[n - 4] && t[n - 4..][1] == t[n - 3];
    }
    assert t[n - 2] == IntToString(s) && t[n - 1] == IntToString(d) by {
      assert t[n - 4..][2] == t[n - 2] && t[n - 4..][3] == t[n - 1];
    }
    IntFieldOfString(a);
    IntFieldOfString(b);
    IntFieldOfString(s);
    IntFieldOfString(d);
    LogFieldsOfTokens(line, t, a, b, s, d);
    AddLineOfFields(c, line, a, b, s, d);
  }

  /** `r` holds the four integers a, b, s, d. */
  predicate FourFields(r: Result<seq<int>>, a: int, b: int, s: int, d: int) {
    r.Ok? && |r.value| == 4 && r.value[0] == a && r.value[1] == b && r.value[2] == s && r.value[3] == d
  }

  lemma {:induction false} AddLineOfFields(c: Counters, line: string, a: int, b: int, s: int, d: int)
    requires FourFields(LogFields(line), a, b, s, d)
    ensures AddLine(c, line) == Ok(Counters(c.cleanLen + a, c.totalTrim + b + d, c.fiveTrim + b, c.threeTrim + d))
  {
  }


  lemma {:induction false} IntFieldsFour(ts: seq<string>, a: int, b: int, s: int, d: int)
    requires |ts| == 4
    requires IntField(ts[0]) == Ok(a) && IntField(ts[1]) == Ok(b)
    requires IntField(ts[2]) == Ok(s) && IntField(ts[3]) == Ok(d)
    ensures FourFields(IntFields(ts), a, b, s, d)
  {
    var t1, t2, t3 := ts[1..], ts[2..], ts[3..];
    assert t1[1..] == t2 && t2[1..] == t3 && t3[1..] == [];
    assert t1[0] == ts[1] && t2[0] == ts[2] && t3[0] == ts[3];
    var r3 := [d] + [];
    var r2 := [s] + r3;
    var r1 := [b] + r2;
    IntFieldsCons(t3, d, []);
    IntFieldsCons(t2, s, r3);
    IntFieldsCons(t1, b, r2);
    IntFieldsCons(ts, a, r1);
  }

  lemma {:induction false} IntFieldsCons(ts: seq<string>, v: int, vs: seq<int>)
    requires ts != [] && IntField(ts[0]) == Ok(v) && IntFields(ts[1..]) == Ok(vs)
    ensures IntFields(ts) == Ok([v] + vs)
  {
  }

  lemma {:induction false} IntFieldOfString(n: int)
    ensures IntField(IntToString(n)) == Ok(n)
  {
    ParseIntToString(n);
  }

  lemma {:induction false} LogFieldsOfTokens(line: string, tokens: seq<string>, a: int, b: int, s: int, d: int)
    requires SplitWs(line) == tokens && |tokens| >= 4
    requires IntField(tokens[|tokens| - 4]) == Ok(a) && IntField(tokens[|tokens| - 3]) == Ok(b)
    requires IntField(tokens[|tokens| - 2]) == Ok(s) && IntField(tokens[|tokens| - 1]) == Ok(d)
    ensures FourFields(LogFields(line), a, b, s, d)
  {
    var last := LastFour(tokens);
    assert last[0] == tokens[|tokens| - 4] && last[1] == tokens[|tokens| - 3];
    assert last[2] == tokens[|tokens| - 2] && last[3] == tokens[|tokens| - 1];
    IntFieldsFour(last, a, b, s, d);
  }

  /** A line with fewer than four tokens that all read as integers raises
      IndexError. */
  lemma {:induction false} ShortLineRaises(c: Counters, line: string)
    requires |SplitWs(line)| < 4 && LogFields(line).Ok?
    ensures AddLine(c, line) == Err(IndexError)
  {
  }

  /** With no negative field, the counters stay non-negative. */
  predicate NaturalFields(line: string) {
    LogFields(line).Ok? ==> forall k :: 0 <= k < |LogFields(line).value| ==> LogFields(line).value[k] >= 0
  }

  predicate NaturalCounters(c: Counters) {
    c.cleanLen >= 0 && c.fiveTrim >= 0 && c.threeTrim >= 0 && c.totalTrim >= 0
  }

  lemma {:induction false} TotalsNatural(lines: seq<string>)
    requires forall i :: 0 <= i < |lines| ==> NaturalFields(lines[i])
    ensures Totals(lines).Ok? ==> NaturalCounters(Totals(lines).value)
    decreases |lines|
  {
    if lines != [] {
      var n := |lines| - 1;
      TotalsNatural(lines[..n]);
      if Totals(lines[..n]).Ok? {
        assert lines[..n + 1] == lines;
        FoldResultStep(NoCounts, lines, n, AddLine);
        AddLineNatural(Totals(lines[..n]).value, lines[n]);
      }
    }
  }

  lemma {:induction false} AddLineNatural(c: Counters, line: string)
    requires NaturalCounters(c) && NaturalFields(line)
    ensures AddLine(c, line).Ok? ==> NaturalCounters(AddLine(c, line).value)
  {
  }

  /** The trimmed percentage raises exactly when nothing was counted, and
      with non-negative counters it lies in [0, 100]. */
  lemma {:induction false} TrimPercentageBounds(c: Counters)
    ensures TrimPercentage(c).Err? <==> c.cleanLen + c.totalTrim == 0
    ensures c.cleanLen >= 0 && c.totalTrim >= 0 && TrimPercentage(c).Ok? ==>
      0.0 <= TrimPercentage(c).value <= 100.0
  {
    var totalLen := c.cleanLen + c.totalTrim;
    if c.cleanLen >= 0 && c.totalTrim >= 0 && totalLen != 0 {
      var x := Share(c.totalTrim, totalLen);
      UnitShare(c.totalTrim, totalLen);
      RoundHalfEvenBounds(x * 100.0 * 100.0, 0, 10000);
    }
  }

  lemma {:induction false} UnitShare(part: int, whole: int)
    requires 0 <= part <= whole && whole > 0
    ensures 0.0 <= Share(part, whole) <= 1.0
  {
    var x := Share(part, whole);
    assert x * whole as real == part as real;
  }

  // ---------------------------------------------------------------------
  // write_report

  const ReportHeader := "Sample,Total length,Total trimmed,%,5end Trim,3end Trim\n"

  /** `[str(x) for x in vals.values()]`; the percentage is a float. */
  function StatValues(s: TrimStats, showReal: real -> string): seq<string> {
    [IntToString(s.cleanLen), IntToString(s.totalTrim), showReal(s.totalTrimPerc), IntToString(s.fiveTrim), IntToString(s.threeTrim)]
  }

  /** One row without its newline. */
  function StatsRow(sample: string, s: TrimStats, showReal: real -> string): string {
    sample + "," + Join(StatValues(s, showReal), ",")
  }

  /** The rows after the header, in storage order. */
  function Rows(items: seq<(string, TrimStats)>, showReal: real -> string): string
    decreases |items|
  {
    if items == [] then ""
    else
      var n := |items| - 1;
      Rows(items[..n], showReal) + StatsRow(items[n].0, items[n].1, showReal) + "\n"
  }

  /** The text `write_report` writes. */
  function ReportText(storage: ODict<string, TrimStats>, showReal: real -> string): string
    requires storage.Valid()
  {
    ReportHeader + Rows(storage.Items(), showReal)
  }

  lemma {:induction false} RowsSnoc(items: seq<(string, TrimStats)>, item: (string, TrimStats), showReal: real -> string)
    ensures Rows(items + [item], showReal) == Rows(items, showReal) + StatsRow(item.0, item.1, showReal) + "\n"
  {
    assert (items + [item])[..|items|] == items;
  }

  lemma {:induction false} RowsStep(items: seq<(string, TrimStats)>, i: nat, showReal: real -> string)
    requires i < |items|
    ensures Rows(items[..i + 1], showReal) == Rows(items[..i], showReal) + StatsRow(items[i].0, items[i].1, showReal) + "\n"
  {
    assert items[..i + 1] == items[..i] + [items[i]];
    RowsSnoc(items[..i], items[i], showReal);
  }

  /** `write_report`: the header, then one row per sample. */
  method WriteReport(storage: ODict<string, TrimStats>, showReal: real -> string) returns (text: string)
    requires storage.Valid()
    ensures text == ReportText(storage, showReal)
  {
    var rows := "";
    var items := storage.Items();
    var i := 0;
    assert items[..0] == [];
    while i < |items|
      invariant 0 <= i <= |items|
      invariant rows == Rows(items[..i], showReal)
    {
      RowsStep(items, i, showReal);
      rows := rows + StatsRow(items[i].0, items[i].1, showReal) + "\n";
      i := i + 1;
    }
    assert items[..i] == items;
    text := ReportHeader + rows;
  }

  /** A row splits on ',' back into the sample and the five values, in the
      order clean_len, total_trim, total_trim_perc, 5trim, 3trim, when none
      of them holds a comma. */
  lemma {:induction false} RowFields(sample: string, s: TrimStats, showReal: real -> string)
    requires ',' !in sample && ',' !in showReal(s.totalTrimPerc)
    ensures SplitOn(StatsRow(sample, s, showReal), ',') == [sample] + StatValues(s, showReal)
  {
    var vs := StatValues(s, showReal);
    IntToStringChars(s.cleanLen);
    IntToStringChars(s.totalTrim);
    IntToStringChars(s.fiveTrim);
    IntToStringChars(s.threeTrim);
    var all := [sample] + vs;
    assert forall i :: 0 <= i < |all| ==> ',' !in all[i];
    JoinCons(all, ",");
    assert all[1..] == vs;
    SplitOnJoin(all, ',');
  }

  // ---------------------------------------------------------------------
  // main

  const LogSuffix := "_trimlog.txt"

  /** `log.rstrip("_trimlog.txt")` as written: trailing characters from the
      set {_, t, r, i, m, l, o, g, ., x} are dropped, in any order. */
  function SampleIdAsWritten(path: string): (r: string)
    ensures |r| <= |path| && r == path[..|r|]
  {
    RStripChars(path, set c | c in LogSuffix)
  }

  /** The rstrip eats into the sample name when the name ends in one of
      those characters: "cat_trimlog.txt" gives "ca", where the literal
      suffix removal gives "cat". */
  lemma {:induction false} SampleIdAsWrittenCutsName(name: string, ch: char)
    requires ch in LogSuffix && (name == [] || name[|name| - 1] !in LogSuffix)
    ensures SampleIdAsWritten(name + [ch] + LogSuffix) == name
    ensures SampleId(name + [ch] + LogSuffix) == name + [ch]
  {
    var cs := set c | c in LogSuffix;
    var named := name + [ch];
    SuffixStripped(named, cs);
    assert named[..|named| - 1] == name && named[|named| - 1] == ch;
    assert RStripChars(named, cs) == RStripChars(name, cs);
    SampleIdOfLog(named);
  }

  lemma {:induction false} CatLogCut()
    ensures SampleIdAsWritten("cat" + LogSuffix) == "ca"
    ensures SampleId("cat" + LogSuffix) == "cat"
  {
    assert LogSuffix[1] == 't';
    assert "ca"[1] == 'a' && 'a' !in LogSuffix;
    assert "ca" + ['t'] == "cat";
    SampleIdAsWrittenCutsName("ca", 't');
  }

  lemma {:induction false} SuffixStripped(name: string, cs: set<char>)
    requires cs == set c | c in LogSuffix
    ensures RStripChars(name + LogSuffix, cs) == RStripChars(name, cs)
  {
    var s := name + LogSuffix;
    assert forall c :: c in LogSuffix ==> c in cs;
    RStripCharsSuffix(name, LogSuffix, cs);
  }

  lemma {:induction false} RStripCharsSuffix(name: string, suffix: string, cs: set<char>)
    requires forall i :: 0 <= i < |suffix| ==> suffix[i] in cs
    ensures RStripChars(name + suffix, cs) == RStripChars(name, cs)
    decreases |suffix|
  {
    if suffix != [] {
      var n := |suffix| - 1;
      assert (name + suffix)[..|name + suffix| - 1] == name + suffix[..n];
      assert (name + suffix)[|name + suffix| - 1] == suffix[n];
      RStripCharsSuffix(name, suffix[..n], cs);
    } else {
      assert name + suffix == name;
    }
  }

  /** The sample id as intended: the file name without the literal
      "_trimlog.txt" suffix. */
  function SampleId(path: string): (r: string)
    ensures |r| <= |path| && r == path[..|r|]
  {
    if |path| >= |LogSuffix| && path[|path| - |LogSuffix|..] == LogSuffix then path[..|path| - |LogSuffix|]
    else path
  }

  /** The suffix, and only the suffix, is removed. */
  lemma {:induction false} SampleIdOfLog(name: string)
    ensures SampleId(name + LogSuffix) == name
  {
    var p := name + LogSuffix;
    assert p[|p| - |LogSuffix|..] == LogSuffix;
    assert p[..|p| - |LogSuffix|] == name;
  }

  /** One log file of `main`: its path and its lines. */
  function LogEntry(log: (string, seq<string>)): Result<(string, TrimStats)> {
    match LogStats(log.1)
    case Err(e) => Err(e)
    case Ok(s) => Ok((LogKey(log), s))
  }

  /** `log_storage` after `main`'s loop. */
  function Storage(logs: seq<(string, seq<string>)>): (r: Result<ODict<string, TrimStats>>)
    ensures r.Ok? ==> r.value.Valid()
  {
    CollectPairs(logs, LogEntry)
  }

  /** The report `main` writes, or the exception it stops with. */
  function Report(logs: seq<(string, seq<string>)>, showReal: real -> string): Result<string> {
    match Storage(logs)
    case Err(e) => Err(e)
    case Ok(d) => Ok(ReportText(d, showReal))
  }

  /** `main` over the log files, each given with its lines. */
  method RunReport(logs: seq<(string, seq<string>)>, showReal: real -> string) returns (r: Result<string>)
    ensures r == Report(logs, showReal)
  {
    var logStorage := Empty<string, TrimStats>();
    var i := 0;
    while i < |logs|
      invariant 0 <= i <= |logs|
      invariant Storage(logs[..i]) == Ok(logStorage)
    {
      var (log, lines) := logs[i];
      var logId := SampleIdAsWritten(log);
      var stats := ParseLog(lines);
      CollectPairsStep(logs, i, LogEntry);
      if stats.Err? {
        return Err(stats.error);
      }
      logStorage := logStorage.Put(logId, stats.value);
      i := i + 1;
    }
    assert logs[..i] == logs;
    var text := WriteReport(logStorage, showReal);
    r := Ok(text);
  }

  /** The storage holds one entry per sample id, with the statistics of
      the id's last log; any log that raises stops the report. */
  lemma {:induction false} StorageEntries(logs: seq<(string, seq<string>)>)
    ensures Storage(logs).Ok? <==> forall i :: 0 <= i < |logs| ==> LogStats(logs[i].1).Ok?
    ensures Storage(logs).Ok? ==>
      var d := Storage(logs).value;
      && d.m.Keys == (set i | 0 <= i < |logs| :: LogKey(logs[i]))
      && forall i :: 0 <= i < |logs| && (forall j :: i < j < |logs| ==> LogKey(logs[j]) != LogKey(logs[i])) ==>
           d.m[LogKey(logs[i])] == LogStats(logs[i].1).value
  {
    CollectPairsContents(logs, LogEntry);
    forall i | 0 <= i < |logs|
      ensures LogEntry(logs[i]).Ok? <==> LogStats(logs[i].1).Ok?
      ensures LogEntry(logs[i]).Ok? ==> LogEntry(logs[i]).value == (LogKey(logs[i]), LogStats(logs[i].1).value)
    {
      LogEntryOf(logs[i]);
    }
    CollectPairsKeyed(logs, LogEntry, LogKey);
  }

  /** The sample id `main` files a log under: the path with the
      characters of "_trimlog.txt" stripped from its end, as written. */
  function LogKey(log: (string, seq<string>)): string {
    SampleIdAsWritten(log.0)
  }

  lemma {:induction false} LogEntryOf(log: (string, seq<string>))
    ensures LogEntry(log).Ok? <==> LogStats(log.1).Ok?
    ensures LogEntry(log).Ok? ==> LogEntry(log).value == (LogKey(log), LogStats(log.1).value)
  {
  }
}
