/** `process_assembly_mapping.py`: the per-contig coverage table, the
    minimum coverage ("auto" or given), the test that filtering keeps 80%
    of the expected genome, and the header-gated filter of the assembly
    lines together with the contig list handed to the BAM filter. */
module ProcessAssemblyMapping {
  import opened Wrappers
  import opened Strings
  import opened Numbers
  import opened Lists
  import opened OrderedDicts

  /** `{"cov": ..., "len": ...}` of one contig. */
  datatype ContigCoverage = ContigCoverage(cov: int, len: int)

  // ----------------------------------------------- the length_(.+?)_ capture

  /** The first `_` at or after `j`, provided no newline comes before it
      (`.` does not match a newline). */
  function UnderscoreFrom(line: string, j: nat): (r: Option<nat>)
    ensures r.Some? ==> j <= r.value < |line| && line[r.value] == '_'
    decreases |line| - j
  {
    if j >= |line| then None
    else if line[j] == '_' then Some(j)
    else if line[j] == '\n' then None
    else UnderscoreFrom(line, j + 1)
  }

  /** The capture of `length_(.+?)_` for a match starting at `p`: at least
      one character, then as few more as possible up to the next `_`. */
  function CaptureAt(line: string, p: nat): Option<string> {
    if p + 7 < |line| && line[p..p + 7] == "length_" && line[p + 7] != '\n' then
      match UnderscoreFrom(line, p + 8)
      case Some(q) => Some(line[p + 7..q])
      case None => None
    else None
  }

  /** `re.search` tries the starting positions from left to right. */
  function LengthSearch(line: string, p: nat): Option<string>
    decreases |line| - p
  {
    if p >= |line| then None
    else match CaptureAt(line, p)
      case Some(c) => Some(c)
      case None => LengthSearch(line, p + 1)
  }

  /** `re.search("length_(.+?)_", line).group(1)`, None when nothing
      matches. */
  function LengthCapture(line: string): Option<string> {
    LengthSearch(line, 0)
  }

  lemma {:induction false} UnderscoreFromSpec(line: string, j: nat)
    ensures UnderscoreFrom(line, j).Some? ==> forall k :: j <= k < UnderscoreFrom(line, j).value ==> line[k] != '_' && line[k] != '\n'
    ensures UnderscoreFrom(line, j).None? ==> forall q :: j <= q < |line| && line[q] == '_' ==> exists k :: j <= k < q && line[k] == '\n'
    decreases |line| - j
  {
    if j < |line| && line[j] != '_' && line[j] != '\n' {
      UnderscoreFromSpec(line, j + 1);
      if UnderscoreFrom(line, j).None? {
        forall q | j <= q < |line| && line[q] == '_' ensures exists k :: j <= k < q && line[k] == '\n' {
          var k :| j + 1 <= k < q && line[k] == '\n';
        }
      }
    } else if j < |line| && line[j] == '\n' {
      forall q | j <= q < |line| && line[q] == '_' ensures exists k :: j <= k < q && line[k] == '\n' {
        assert line[j] == '\n';
      }
    }
  }

  /** A match at `p` captures `c` exactly when `length_` stands at `p`, `c`
      follows it with at least one character, no newline and no `_` after
      its first character, and a `_` follows `c`. */
  lemma CaptureAtSpec(line: string, p: nat, c: string)
    ensures CaptureAt(line, p) == Some(c) <==>
      && p + 7 + |c| < |line| && line[p..p + 7] == "length_" && line[p + 7..p + 7 + |c|] == c
      && |c| >= 1 && line[p + 7 + |c|] == '_'
      && (forall k :: 0 <= k < |c| ==> c[k] != '\n') && (forall k :: 1 <= k < |c| ==> c[k] != '_')
  {
    var e := p + 7 + |c|;
    if p + 7 < |line| {
      UnderscoreFromSpec(line, p + 8);
    }
    if CaptureAt(line, p) == Some(c) {
      var q := UnderscoreFrom(line, p + 8).value;
      assert c == line[p + 7..q] && q == e;
      forall k | 0 <= k < |c| ensures c[k] != '\n' {
        assert c[k] == line[p + 7 + k];
      }
      forall k | 1 <= k < |c| ensures c[k] != '_' {
        assert c[k] == line[p + 7 + k];
      }
    }
    if && e < |line| && line[p..p + 7] == "length_" && line[p + 7..e] == c
              && |c| >= 1 && line[e] == '_'
              && (forall k :: 0 <= k < |c| ==> c[k] != '\n') && (forall k :: 1 <= k < |c| ==> c[k] != '_') {
      assert line[p + 7] == c[0];
      forall k | p + 8 <= k < e ensures line[k] != '_' && line[k] != '\n' {
        assert line[k] == c[k - p - 7];
      }
      assert UnderscoreFrom(line, p + 8) == Some(e);
    }
  }

  /** The capture is that of the leftmost position where the pattern
      matches. */
  lemma {:induction false} LengthSearchSpec(line: string, p: nat)
    ensures LengthSearch(line, p).Some? ==> exists s :: p <= s && CaptureAt(line, s) == LengthSearch(line, p) && forall t :: p <= t < s ==> CaptureAt(line, t).None?
    ensures LengthSearch(line, p).None? ==> forall t :: p <= t ==> CaptureAt(line, t).None?
    decreases |line| - p
  {
    if p < |line| && CaptureAt(line, p).None? {
      LengthSearchSpec(line, p + 1);
      if LengthSearch(line, p).Some? {
        var s :| p + 1 <= s && CaptureAt(line, s) == LengthSearch(line, p) && forall t :: p + 1 <= t < s ==> CaptureAt(line, t).None?;
        assert forall t :: p <= t < s ==> CaptureAt(line, t).None?;
      }
    } else if p >= |line| {
      forall t | p <= t ensures CaptureAt(line, t).None? {
      }
    }
  }

  /** `length_(.+?)_` on a SPAdes-style header. */
  lemma LengthCaptureExample()
    ensures LengthCapture("NODE_1_length_42_cov_7") == Some("42")
  {
    var line := "NODE_1_length_42_cov_7";
    assert line[7..14] == "length_" && line[14..16] == "42" && line[16] == '_';
    CaptureAtSpec(line, 7, "42");
    forall p | 0 <= p < 7 ensures CaptureAt(line, p).None? {
      assert line[p..p + 7][0] == line[p] != 'l';
    }
    assert LengthSearch(line, 7) == Some("42");
    assert LengthSearch(line, 5) == LengthSearch(line, 7);
    assert LengthSearch(line, 3) == LengthSearch(line, 5);
    assert LengthSearch(line, 1) == LengthSearch(line, 3);
  }

  // -------------------------------------------------------- coverage table

  /** One line of the table: `contig, cov = line.strip().split()` (exactly
      two tokens), the length from the `length_` capture of the whole line,
      then `int(cov)`. */
  function CoverageEntry(line: string): Result<(string, ContigCoverage)> {
    var fields := SplitWs(Strip(line));
    if |fields| != 2 then Err(ValueError)
    else match LengthCapture(line)
      case None => Err(AttributeError)
      case Some(c) =>
        match ParseInt(c)
        case None => Err(ValueError)
        case Some(len) =>
          match ParseInt(fields[1])
          case None => Err(ValueError)
          case Some(cov) => Ok((fields[0], ContigCoverage(cov, len)))
  }

  /** What `parse_coverage_table` returns. */
  datatype CoverageTable = CoverageTable(info: ODict<string, ContigCoverage>, totalSize: int, totalCov: int)

  function TotalLen(es: seq<(string, ContigCoverage)>): int {
    if es == [] then 0 else TotalLen(es[..|es| - 1]) + es[|es| - 1].1.len
  }

  function TotalCov(es: seq<(string, ContigCoverage)>): int {
    if es == [] then 0 else TotalCov(es[..|es| - 1]) + es[|es| - 1].1.cov
  }

  /** The table built from the lines with `entry` parsing each line: the
      dictionary assigned line by line, and both totals over every line. */
  function Table(lines: seq<string>, entry: string -> Result<(string, ContigCoverage)>): (r: Result<CoverageTable>)
    ensures r.Ok? ==> r.value.info.Valid()
  {
    match MapResult(lines, entry)
    case Err(e) => Err(e)
    case Ok(es) => Ok(CoverageTable(FromPairs(es), TotalLen(es), TotalCov(es)))
  }

  /** `parse_coverage_table` */
  function ParseCoverage(lines: seq<string>): Result<CoverageTable> {
    Table(lines, CoverageEntry)
  }

  /** One more line of the loop. */
  lemma TableStep(lines: seq<string>, n: nat, entry: string -> Result<(string, ContigCoverage)>)
    requires n < |lines| && Table(lines[..n], entry).Ok?
    ensures entry(lines[n]).Ok? ==>
      var t := Table(lines[..n], entry).value; var e := entry(lines[n]).value;
      Table(lines[..n + 1], entry) == Ok(CoverageTable(t.info.Put(e.0, e.1), t.totalSize + e.1.len, t.totalCov + e.1.cov))
    ensures entry(lines[n]).Err? ==> Table(lines, entry) == Err(entry(lines[n]).error)
  {
    MapResultStep(lines, n, entry);
    if entry(lines[n]).Ok? {
      TotalsSnoc(MapResult(lines[..n], entry).value, entry(lines[n]).value);
    }
  }

  /** The table of one more pair. */
  lemma TotalsSnoc(es: seq<(string, ContigCoverage)>, e: (string, ContigCoverage))
    ensures FromPairs(es + [e]) == FromPairs(es).Put(e.0, e.1)
    ensures TotalLen(es + [e]) == TotalLen(es) + e.1.len
    ensures TotalCov(es + [e]) == TotalCov(es) + e.1.cov
  {
    FromPairsSnoc(es, e.0, e.1);
    assert (es + [e])[..|es|] == es;
  }

  /** The loop of `parse_coverage_table`, with `entry` parsing a line. */
  method ReadTable(lines: seq<string>, entry: string -> Result<(string, ContigCoverage)>) returns (r: Result<CoverageTable>)
    ensures r == Table(lines, entry)
  {
    var coverageDict := Empty<string, ContigCoverage>();
    var totalSize := 0;
    var totalCov := 0;
    var i := 0;
    while i < |lines|
      invariant 0 <= i <= |lines|
      invariant Table(lines[..i], entry) == Ok(CoverageTable(coverageDict, totalSize, totalCov))
    {
      var e := entry(lines[i]);
      TableStep(lines, i, entry);
      if e.Err? {
        return Err(e.error);
      }
      var contig := e.value.0;
      var info := e.value.1;
      coverageDict := coverageDict.Put(contig, info);
      totalCov := totalCov + info.cov;
      totalSize := totalSize + info.len;
      i := i + 1;
    }
    assert lines[..i] == lines;
    r := Ok(CoverageTable(coverageDict, totalSize, totalCov));
  }

  /** `parse_coverage_table` */
  method ParseCoverageTable(lines: seq<string>) returns (r: Result<CoverageTable>)
    ensures r == ParseCoverage(lines)
  {
    r := ReadTable(lines, CoverageEntry);
  }

  /** The table is read iff every line parses, else it raises what the
      first failing line raises. Then there is one entry per distinct
      contig, in order of first appearance, holding its last line's values,
      while the totals add up the values of every line. */
  lemma {:induction false} TableContents(lines: seq<string>, entry: string -> Result<(string, ContigCoverage)>)
    ensures Table(lines, entry).Ok? <==> forall i :: 0 <= i < |lines| ==> entry(lines[i]).Ok?
    ensures Table(lines, entry).Err? ==> exists i ::
      && 0 <= i < |lines| && entry(lines[i]) == Err(Table(lines, entry).error)
      && forall j :: 0 <= j < i ==> entry(lines[j]).Ok?
    ensures Table(lines, entry).Ok? ==>
      var es := MapResult(lines, entry).value; var t := Table(lines, entry).value;
      && (forall i :: 0 <= i < |lines| ==> es[i] == entry(lines[i]).value)
      && t.info.m.Keys == (set j | 0 <= j < |es| :: es[j].0)
      && (forall i :: 0 <= i < |es| && (forall j :: i < j < |es| ==> es[j].0 != es[i].0) ==> t.info.m[es[i].0] == es[i].1)
      && (forall p, q :: 0 <= p < q < |t.info.keys| ==> FirstIndex(es, t.info.keys[p]) < FirstIndex(es, t.info.keys[q]))
      && t.totalSize == TotalLen(es) && t.totalCov == TotalCov(es)
  {
    CollectPairsContents(lines, entry);
  }

  /** A contig listed twice keeps one dictionary entry, with its second
      values, but both lines count towards the totals. */
  lemma DuplicateContig(a: string, b: string, entry: string -> Result<(string, ContigCoverage)>, contig: string, va: ContigCoverage, vb: ContigCoverage)
    requires entry(a) == Ok((contig, va)) && entry(b) == Ok((contig, vb))
    ensures Table([a, b], entry).Ok?
    ensures Table([a, b], entry).value.info.keys == [contig]
    ensures Table([a, b], entry).value.info.m == map[contig := vb]
    ensures Table([a, b], entry).value.totalCov == va.cov + vb.cov
    ensures Table([a, b], entry).value.totalSize == va.len + vb.len
  {
    var lines := [a, b];
    assert lines[..0] == [] && lines[..1] == [a] && lines[..2] == lines;
    assert Table(lines[..0], entry) == Ok(CoverageTable(Empty(), 0, 0));
    TableStep(lines, 0, entry);
    TableStep(lines, 1, entry);
  }

  // ------------------------------------------------------ minimum coverage

  /** The threshold of `main`: for "auto", 0.3 times the mean coverage
      `a_cov / a_size`, raised to 10 when lower; otherwise `int(...)` of
      the argument. */
  function MinCoverage(arg: string, totalSize: int, totalCov: int): Result<real> {
    if arg == "auto" then
      if totalSize == 0 then Err(ZeroDivisionError)
      else
        var m := (totalCov as real / totalSize as real) * 0.3;
        Ok(if m < 10.0 then 10.0 else m)
    else match ParseInt(arg)
      case None => Err(ValueError)
      case Some(v) => Ok(v as real)
  }

  /** "auto" gives the larger of 10 and 0.3 times the mean coverage, so
      never less than 10; any other argument gives its integer value. */
  lemma MinCoverageSpec(arg: string, totalSize: int, totalCov: int)
    ensures arg == "auto" ==> (MinCoverage(arg, totalSize, totalCov).Err? <==> totalSize == 0)
    ensures arg == "auto" && totalSize != 0 ==>
      var m := MinCoverage(arg, totalSize, totalCov).value; var third := (totalCov as real / totalSize as real) * 0.3;
      && m >= 10.0 && m >= third && (m == 10.0 || m == third)
    ensures arg != "auto" ==> match ParseInt(arg)
      case Some(v) => MinCoverage(arg, totalSize, totalCov) == Ok(v as real)
      case None => MinCoverage(arg, totalSize, totalCov) == Err(ValueError)
  {
  }

  // ---------------------------------------------------------- size check

  /** `sum(x["len"] for x in values if x["cov"] >= minimum_coverage)` */
  function KeptLength(vs: seq<ContigCoverage>, minimumCoverage: real): int {
    if vs == [] then 0
    else
      var v := vs[|vs| - 1];
      KeptLength(vs[..|vs| - 1], minimumCoverage) + (if v.cov as real >= minimumCoverage then v.len else 0)
  }

  /** `check_filtered_assembly`: the kept contigs reach 80% of the expected
      genome size (in megabases). */
  function CheckFilteredAssembly(info: ODict<string, ContigCoverage>, minimumCoverage: real, genomeSize: real): bool
    requires info.Valid()
  {
    !(KeptLength(info.Values(), minimumCoverage) as real < genomeSize * 1000000.0 * 0.8)
  }

  /** With lengths that are not negative, a higher threshold keeps no more
      length. */
  lemma {:induction false} KeptLengthAntitone(vs: seq<ContigCoverage>, lo: real, hi: real)
    requires lo <= hi
    requires forall i :: 0 <= i < |vs| ==> vs[i].len >= 0
    ensures KeptLength(vs, hi) <= KeptLength(vs, lo)
    decreases |vs|
  {
    if vs != [] {
      KeptLengthAntitone(vs[..|vs| - 1], lo, hi);
    }
  }

  /** Raising the minimum coverage can turn a passing check into a failing
      one, never the reverse. */
  lemma CheckMonotone(info: ODict<string, ContigCoverage>, lo: real, hi: real, genomeSize: real)
    requires info.Valid() && lo <= hi
    requires forall k :: k in info.m ==> info.m[k].len >= 0
    ensures CheckFilteredAssembly(info, hi, genomeSize) ==> CheckFilteredAssembly(info, lo, genomeSize)
  {
    KeptLengthAntitone(info.Values(), lo, hi);
  }

  // ------------------------------------------------------- BAM contig list

  /** `[x for x, vals in coverage_info.items() if vals["cov"] >= min_coverage]` */
  function ContigList(info: ODict<string, ContigCoverage>, minCoverage: real): seq<string> {
    Filter(info.keys, k => k in info.m && info.m[k].cov as real >= minCoverage)
  }

  /** The list holds, in table order, exactly the contigs whose coverage
      reaches the threshold. */
  lemma ContigListSpec(info: ODict<string, ContigCoverage>, minCoverage: real)
    requires info.Valid()
    ensures forall k :: k in ContigList(info, minCoverage) <==> k in info.m && info.m[k].cov as real >= minCoverage
    ensures |ContigList(info, minCoverage)| <= |info.keys|
  {
    FilterMembers(info.keys, k => k in info.m && info.m[k].cov as real >= minCoverage);
  }

  // ------------------------------------------------------ assembly filter

  predicate IsHeader(line: string) {
    StartsWith(line, ">")
  }

  /** `line.strip()[1:]` */
  function HeaderOf(line: string): string {
    var t := Strip(line);
    if t == [] then [] else t[1..]
  }

  /** Whether a header line opens a kept contig: its coverage from the
      table against the threshold, KeyError when the table lacks it. */
  function HeaderKeep(info: ODict<string, ContigCoverage>, minimumCoverage: real, line: string): Result<bool> {
    var header := HeaderOf(line);
    if header in info.m then Ok(info.m[header].cov as real >= minimumCoverage) else Err(KeyError)
  }

  function HeaderKeeper(info: ODict<string, ContigCoverage>, minimumCoverage: real): string -> Result<bool> {
    line => HeaderKeep(info, minimumCoverage, line)
  }

  /** `write_flag` and the lines written so far. */
  datatype FilterState = FilterState(writeFlag: bool, out: seq<string>)

  /** The loop body: a header resets the flag and sets it, writing itself,
      when `keep` says so; another line is written iff the flag is set. */
  function FilterLine(st: FilterState, line: string, keep: string -> Result<bool>): Result<FilterState> {
    if IsHeader(line) then
      match keep(line)
      case Err(e) => Err(e)
      case Ok(k) => Ok(FilterState(k, if k then st.out + [line] else st.out))
    else Ok(if st.writeFlag then st.(out := st.out + [line]) else st)
  }

  /** The state after the first `n` lines. */
  function FilterLines(lines: seq<string>, n: nat, keep: string -> Result<bool>): Result<FilterState>
    requires n <= |lines|
  {
    if n == 0 then Ok(FilterState(false, []))
    else match FilterLines(lines, n - 1, keep)
      case Err(e) => Err(e)
      case Ok(st) => FilterLine(st, lines[n - 1], keep)
  }

  /** The content `filter_assembly` writes for the table and threshold. */
  function FilteredAssembly(lines: seq<string>, info: ODict<string, ContigCoverage>, minimumCoverage: real): Result<seq<string>> {
    match FilterLines(lines, |lines|, HeaderKeeper(info, minimumCoverage))
    case Err(e) => Err(e)
    case Ok(st) => Ok(st.out)
  }

  /** The last header at or before line `i`. */
  function CurrentHeader(lines: seq<string>, i: nat): (r: Option<nat>)
    requires i < |lines|
    ensures r.Some? ==> r.value <= i && IsHeader(lines[r.value])
  {
    if IsHeader(lines[i]) then Some(i)
    else if i == 0 then None
    else CurrentHeader(lines, i - 1)
  }

  /** Line `i` is written iff it lies under a header that is kept. */
  predicate Written(lines: seq<string>, i: nat, keep: string -> Result<bool>)
    requires i < |lines|
  {
    var h := CurrentHeader(lines, i);
    h.Some? && keep(lines[h.value]) == Ok(true)
  }

  /** The lines written, in input order: an independent description of the
      filter. */
  function KeptLines(lines: seq<string>, n: nat, keep: string -> Result<bool>): seq<string>
    requires n <= |lines|
  {
    if n == 0 then []
    else KeptLines(lines, n - 1, keep) + (if Written(lines, n - 1, keep) then [lines[n - 1]] else [])
  }

  /** The streaming filter succeeds iff `keep` decides every header, and
      then writes exactly the kept lines, in order, with the flag telling
      whether the current contig is kept. */
  lemma {:induction false} FilterLinesSpec(lines: seq<string>, n: nat, keep: string -> Result<bool>)
    requires n <= |lines|
    ensures FilterLines(lines, n, keep).Ok? <==> forall j :: 0 <= j < n && IsHeader(lines[j]) ==> keep(lines[j]).Ok?
    ensures FilterLines(lines, n, keep).Err? ==> exists j :: 0 <= j < n && IsHeader(lines[j]) && keep(lines[j]) == Err(FilterLines(lines, n, keep).error)
    ensures FilterLines(lines, n, keep).Ok? ==>
      && FilterLines(lines, n, keep).value.out == KeptLines(lines, n, keep)
      && FilterLines(lines, n, keep).value.writeFlag == (n > 0 && Written(lines, n - 1, keep))
  {
    if n > 0 {
      FilterLinesSpec(lines, n - 1, keep);
      var line := lines[n - 1];
      if !IsHeader(line) && n > 1 {
        assert CurrentHeader(lines, n - 1) == CurrentHeader(lines, n - 2);
      }
    }
  }

  /** Lines before the first header are never written. */
  lemma {:induction false} BeforeFirstHeaderDropped(lines: seq<string>, n: nat, keep: string -> Result<bool>)
    requires n <= |lines| && forall j :: 0 <= j < n ==> !IsHeader(lines[j])
    ensures KeptLines(lines, n, keep) == []
  {
    if n > 0 {
      BeforeFirstHeaderDropped(lines, n - 1, keep);
      assert CurrentHeader(lines, n - 1).None?;
    }
  }

  /** Once `keep` raises on a header, the whole filter raises the same. */
  lemma {:induction false} FilterStops(lines: seq<string>, n: nat, keep: string -> Result<bool>)
    requires 0 < n <= |lines| && FilterLines(lines, n, keep).Err?
    ensures FilterLines(lines, |lines|, keep) == FilterLines(lines, n, keep)
    decreases |lines| - n
  {
    if n < |lines| {
      FilterStops(lines, n + 1, keep);
    }
  }

  /** The loop of `filter_assembly`. */
  method FilterAssembly(lines: seq<string>, info: ODict<string, ContigCoverage>, minimumCoverage: real) returns (r: Result<seq<string>>)
    ensures r == FilteredAssembly(lines, info, minimumCoverage)
  {
    ghost var keep := HeaderKeeper(info, minimumCoverage);
    var writeFlag := false;
    var out: seq<string> := [];
    var i := 0;
    while i < |lines|
      invariant 0 <= i <= |lines|
      invariant FilterLines(lines, i, keep) == Ok(FilterState(writeFlag, out))
    {
      var line := lines[i];
      if StartsWith(line, ">") {
        writeFlag := false;
        var header := HeaderOf(line);
        if header !in info.m {
          assert FilterLines(lines, i + 1, keep) == Err(KeyError);
          FilterStops(lines, i + 1, keep);
          return Err(KeyError);
        }
        var contigCov := info.m[header].cov;
        if contigCov as real >= minimumCoverage {
          writeFlag := true;
          out := out + [line];
        }
      } else if writeFlag {
        out := out + [line];
      }
      i := i + 1;
    }
    r := Ok(out);
  }

  /** The filter succeeds iff every header is in the table, and then a
      header's contig is written iff that contig is in the BAM contig
      list: both use the same coverage test. */
  lemma FilterMatchesContigList(lines: seq<string>, info: ODict<string, ContigCoverage>, minimumCoverage: real)
    requires info.Valid()
    ensures FilteredAssembly(lines, info, minimumCoverage).Ok? <==> forall j :: 0 <= j < |lines| && IsHeader(lines[j]) ==> HeaderOf(lines[j]) in info.m
    ensures FilteredAssembly(lines, info, minimumCoverage).Err? ==> FilteredAssembly(lines, info, minimumCoverage).error == KeyError
    ensures FilteredAssembly(lines, info, minimumCoverage).Ok? ==>
      FilteredAssembly(lines, info, minimumCoverage).value == KeptLines(lines, |lines|, HeaderKeeper(info, minimumCoverage))
    ensures forall j :: 0 <= j < |lines| && IsHeader(lines[j]) && HeaderOf(lines[j]) in info.m ==>
      (Written(lines, j, HeaderKeeper(info, minimumCoverage)) <==> HeaderOf(lines[j]) in ContigList(info, minimumCoverage))
  {
    var keep := HeaderKeeper(info, minimumCoverage);
    FilterLinesSpec(lines, |lines|, keep);
    ContigListSpec(info, minimumCoverage);
  }

  // ------------------------------------------------------------------ main

  /** The filtered assembly and the contig list for the BAM filter, or
      the inputs copied unchanged (`bamContigs == None`). */
  datatype MappingOutputs = MappingOutputs(assembly: seq<string>, bamContigs: Option<seq<string>>)

  /** `main` on the coverage table lines and the assembly lines. */
  function ProcessAssemblyMapping(coverageLines: seq<string>, assemblyLines: seq<string>, minAssemblyCoverage: string, genomeSize: real): Result<MappingOutputs> {
    var table :- ParseCoverage(coverageLines);
    var minCoverage :- MinCoverage(minAssemblyCoverage, table.totalSize, table.totalCov);
    if CheckFilteredAssembly(table.info, minCoverage, genomeSize) then
      var filtered :- FilteredAssembly(assemblyLines, table.info, minCoverage);
      Ok(MappingOutputs(filtered, Some(ContigList(table.info, minCoverage))))
    else Ok(MappingOutputs(assemblyLines, None))
  }

  /** When the 80% check passes, the assembly is filtered and the BAM keeps the
      listed contigs; when it fails, both inputs are copied verbatim. */
  lemma ProcessAssemblyMappingSpec(coverageLines: seq<string>, assemblyLines: seq<string>, minAssemblyCoverage: string, genomeSize: real)
    requires ProcessAssemblyMapping(coverageLines, assemblyLines, minAssemblyCoverage, genomeSize).Ok?
    ensures var table := ParseCoverage(coverageLines).value;
      var minCoverage := MinCoverage(minAssemblyCoverage, table.totalSize, table.totalCov).value;
      var o := ProcessAssemblyMapping(coverageLines, assemblyLines, minAssemblyCoverage, genomeSize).value;
      && (CheckFilteredAssembly(table.info, minCoverage, genomeSize) ==>
            o.assembly == KeptLines(assemblyLines, |assemblyLines|, HeaderKeeper(table.info, minCoverage))
            && o.bamContigs == Some(ContigList(table.info, minCoverage)))
      && (!CheckFilteredAssembly(table.info, minCoverage, genomeSize) ==> o.assembly == assemblyLines && o.bamContigs.None?)
  {
    var table := ParseCoverage(coverageLines).value;
    var minCoverage := MinCoverage(minAssemblyCoverage, table.totalSize, table.totalCov).value;
    FilterMatchesContigList(assemblyLines, table.info, minCoverage);
  }
}
