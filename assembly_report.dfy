/** assembly_report.py: an assembly in FASTA format parsed into an ordered
    header-to-sequence map, and a one-line CSV summary of it (contig count,
    mean contig size, N50, total length, mean GC proportion, `N` count). */
module AssemblyReport {
  import opened Wrappers
  import opened Strings
  import opened Numbers
  import opened OrderedDicts
  import opened Stats

  // ---------------------------------------------------------------- parsing

  /** What `_parse_assembly` holds between lines: the current header
      (`None` before the first one) and each header's sequence fragments. */
  datatype Parsing = Parsing(header: Option<string>, frags: ODict<string, seq<string>>)

  predicate ParsingValid(st: Parsing) {
    st.frags.Valid() && (st.header.Some? ==> st.header.value in st.frags.m)
  }

  /** One line of the loop: blank lines are skipped, a `>` line starts the
      record of its stripped remainder (an empty fragment list, also for a
      header seen before), any other line is stripped and appended to the
      current header's fragments; before any header that lookup fails. */
  function ParseLine(st: Parsing, line: string): Result<Parsing> {
    if Strip(line) == [] then Ok(st)
    else if StartsWith(line, ">") then
      var h := Strip(line[1..]);
      Ok(Parsing(Some(h), st.frags.Put(h, [])))
    else if st.header.None? || st.header.value !in st.frags.m then Err(KeyError)
    else
      var h := st.header.value;
      Ok(Parsing(st.header, st.frags.Put(h, st.frags.m[h] + [Strip(line)])))
  }

  function ParseLines(lines: seq<string>): Result<Parsing> {
    FoldResult(Parsing(None, Empty()), lines, ParseLine)
  }

  /** Each header's fragments concatenated, keeping the header order. */
  function Joined(frags: ODict<string, seq<string>>): (d: ODict<string, string>)
    ensures frags.Valid() ==> d.Valid()
    ensures d.keys == frags.keys && d.m.Keys == frags.m.Keys
    ensures forall k :: k in frags.m ==> d.m[k] == Concat(frags.m[k])
  {
    ODict(frags.keys, map k | k in frags.m :: Concat(frags.m[k]))
  }

  /** `self.contigs` after `_parse_assembly`, or what it raises. */
  function Contigs(lines: seq<string>): Result<ODict<string, string>> {
    match ParseLines(lines)
    case Err(e) => Err(e)
    case Ok(st) => Ok(Joined(st.frags))
  }

  /** The loop never leaves an inconsistent state, so `Contigs` only fails
      where a line raises. */
  lemma ParseLinesValid(lines: seq<string>)
    ensures ParseLines(lines).Ok? ==> ParsingValid(ParseLines(lines).value)
  {
    FoldResultInvariant(Parsing(None, Empty()), lines, ParseLine, ParsingValid);
  }

  /** A sequence line before the first header raises KeyError. */
  lemma {:induction false} SequenceBeforeHeader(blanks: seq<string>, line: string, rest: seq<string>)
    requires forall i :: 0 <= i < |blanks| ==> Strip(blanks[i]) == []
    requires Strip(line) != [] && !StartsWith(line, ">")
    ensures Contigs(blanks + [line] + rest) == Err(KeyError)
  {
    var init := Parsing(None, Empty<string, seq<string>>());
    var xs := blanks + [line] + rest;
    var n := |blanks|;
    assert xs[..n] == blanks;
    BlanksKeepState(blanks);
    FoldResultStep(init, xs, n, ParseLine);
  }

  lemma {:induction false} BlanksKeepState(blanks: seq<string>)
    requires forall i :: 0 <= i < |blanks| ==> Strip(blanks[i]) == []
    ensures ParseLines(blanks) == Ok(Parsing(None, Empty()))
  {
    if blanks != [] {
      BlanksKeepState(blanks[..|blanks| - 1]);
    }
  }

  /** The lines of a record's body: neither blank nor headers (blank lines
      may sit among them). */
  predicate IsBodyLine(line: string) {
    |line| == 0 || line[0] != '>'
  }

  lemma BodyLineNotHeader(line: string)
    ensures IsBodyLine(line) <==> !StartsWith(line, ">")
  {
    if |line| > 0 {
      assert line[..1] == [line[0]];
    }
  }

  /** The stripped text of each non-blank line of a body, in order. */
  function BodyText(body: seq<string>): (r: seq<string>)
    ensures |r| <= |body|
    decreases |body|
  {
    if body == [] then []
    else
      var last := Strip(body[|body| - 1]);
      BodyText(body[..|body| - 1]) + (if last == [] then [] else [last])
  }

  /** No fragment of a record is empty. */
  lemma {:induction false} BodyTextNonEmpty(body: seq<string>)
    ensures forall i :: 0 <= i < |BodyText(body)| ==> BodyText(body)[i] != []
    decreases |body|
  {
    if body != [] {
      BodyTextNonEmpty(body[..|body| - 1]);
    }
  }

  lemma HeaderNotBlank(header: string)
    requires StartsWith(header, ">")
    ensures Strip(header) != []
  {
    StripBlank(header);
    assert !IsSpace(header[0]);
  }

  /** A header line starts an empty record for its stripped remainder. */
  lemma ParseHeader(pre: seq<string>, header: string)
    requires ParseLines(pre).Ok?
    requires StartsWith(header, ">")
    ensures ParseLines(pre + [header]) ==
      Ok(Parsing(Some(Strip(header[1..])), ParseLines(pre).value.frags.Put(Strip(header[1..]), [])))
  {
    var xs := pre + [header];
    assert xs[..|xs| - 1] == pre;
    HeaderNotBlank(header);
  }

  /** One body line after the header `h`: a non-blank one extends the
      record of `h` by its stripped text. */
  lemma ParseBodyLine(frags: ODict<string, seq<string>>, h: string, done: seq<string>, line: string)
    requires frags.Valid() && IsBodyLine(line)
    ensures ParseLine(Parsing(Some(h), frags.Put(h, done)), line) ==
      Ok(Parsing(Some(h), frags.Put(h, done + (if Strip(line) == [] then [] else [Strip(line)]))))
  {
    BodyLineNotHeader(line);
    if Strip(line) != [] {
      assert frags.Put(h, done).m[h] == done;
      PutPut(frags, h, done, done + [Strip(line)]);
    } else {
      assert done + [] == done;
    }
  }

  /** Body lines after the header `h`: the record of `h` holds their
      text. */
  lemma {:induction false} ParseBody(frags: ODict<string, seq<string>>, h: string, body: seq<string>)
    requires frags.Valid()
    requires forall i :: 0 <= i < |body| ==> IsBodyLine(body[i])
    ensures FoldResult(Parsing(Some(h), frags.Put(h, [])), body, ParseLine) ==
      Ok(Parsing(Some(h), frags.Put(h, BodyText(body))))
    decreases |body|
  {
    if body != [] {
      var n := |body| - 1;
      assert IsBodyLine(body[n]);
      ParseBody(frags, h, body[..n]);
      ParseBodyLine(frags, h, BodyText(body[..n]), body[n]);
    }
  }

  /** A header line followed by body lines: the record of the header's
      stripped text holds the stripped non-blank body lines, in order, and
      replaces whatever an earlier record with that header held (keeping its
      position); other records are untouched. */
  lemma ParseRecord(pre: seq<string>, header: string, body: seq<string>)
    requires ParseLines(pre).Ok?
    requires StartsWith(header, ">")
    requires forall i :: 0 <= i < |body| ==> IsBodyLine(body[i])
    ensures ParseLines(pre + [header] + body) ==
      Ok(Parsing(Some(Strip(header[1..])), ParseLines(pre).value.frags.Put(Strip(header[1..]), BodyText(body))))
  {
    var h := Strip(header[1..]);
    var frags := ParseLines(pre).value.frags;
    ParseLinesValid(pre);
    ParseHeader(pre, header);
    FoldResultAppend(Parsing(None, Empty()), pre + [header], body, ParseLine);
    ParseBody(frags, h, body);
  }

  // --------------------------------------------------------------- summary

  /** `summary_info["avg_contig_size"]` and `summary_info["avg_gc"]` start
      as lists and are replaced by a float at the end of the summary. */
  datatype Slot = List(xs: seq<real>) | Float(v: real)

  /** `summary_info`: six fixed keys, in this order. */
  datatype Summary = Summary(
    ncontigs: int, avgContigSize: Slot, n50: int, totalLen: int, avgGc: Slot, missingData: int)

  const InitialSummary := Summary(0, List([]), 0, 0, List([]), 0)

  /** A contig's GC proportion: uppercase G and C over its length. */
  function GcRatio(s: string): real
    requires |s| > 0
  {
    (Count(s, 'G') + Count(s, 'C')) as real / |s| as real
  }

  lemma GcRatioBounds(s: string)
    requires |s| > 0
    ensures 0.0 <= GcRatio(s) <= 1.0
  {
    CountFour(s, 'G', 'C', 'A', 'T');
    UnitRatio((Count(s, 'G') + Count(s, 'C')) as real, |s| as real);
  }

  /** One iteration of the loop over the contigs: the length is added to
      the total, then `.append` on `avg_gc` fails once it is a float, and
      the GC proportion divides by the length; `N` counts are summed. */
  function AddContig(info: Summary, s: string): Result<Summary> {
    if info.avgGc.Float? then Err(AttributeError)
    else if |s| == 0 then Err(ZeroDivisionError)
    else Ok(info.(totalLen := info.totalLen + |s|,
                  avgGc := List(info.avgGc.xs + [GcRatio(s)]),
                  missingData := info.missingData + Count(s, 'N')))
  }

  function Lengths(seqs: seq<string>): (r: seq<int>)
    ensures |r| == |seqs| && forall i :: 0 <= i < |seqs| ==> r[i] == |seqs[i]|
    decreases |seqs|
  {
    if seqs == [] then [] else Lengths(seqs[..|seqs| - 1]) + [|seqs[|seqs| - 1]|]
  }

  function CountsOfN(seqs: seq<string>): (r: seq<int>)
    ensures |r| == |seqs| && forall i :: 0 <= i < |seqs| ==> r[i] == Count(seqs[i], 'N')
    decreases |seqs|
  {
    if seqs == [] then [] else CountsOfN(seqs[..|seqs| - 1]) + [Count(seqs[|seqs| - 1], 'N')]
  }

  function GcRatios(seqs: seq<string>): (r: seq<real>)
    requires forall i :: 0 <= i < |seqs| ==> |seqs[i]| > 0
    ensures |r| == |seqs| && forall i :: 0 <= i < |seqs| ==> r[i] == GcRatio(seqs[i])
    decreases |seqs|
  {
    if seqs == [] then [] else GcRatios(seqs[..|seqs| - 1]) + [GcRatio(seqs[|seqs| - 1])]
  }

  /** The running sum of the lengths up to and including position `k`. */
  function RunningSum(desc: seq<int>, k: nat): int
    requires k < |desc|
  {
    Sum(desc[..k + 1])
  }

  /** The index of the N50 contig in the descending lengths: the first
      position, from `j` on, whose running sum reaches half the total. */
  function N50Index(desc: seq<int>, half: real, j: nat): (r: Option<nat>)
    requires j <= |desc|
    ensures r.Some? ==> j <= r.value < |desc| && RunningSum(desc, r.value) as real >= half
    ensures r.Some? ==> forall k :: j <= k < r.value ==> (RunningSum(desc, k) as real) < half
    ensures r.None? ==> forall k :: j <= k < |desc| ==> (RunningSum(desc, k) as real) < half
    decreases |desc| - j
  {
    if j == |desc| then None
    else if RunningSum(desc, j) as real >= half then Some(j)
    else N50Index(desc, half, j + 1)
  }

  /** The summary after `get_summary_stats` on the contig sequences
      `seqs`, in order, starting from `info`. */
  function SummaryStats(info: Summary, seqs: seq<string>): Result<Summary> {
    match FoldResult(info.(ncontigs := |seqs|), seqs, AddContig)
    case Err(e) => Err(e)
    case Ok(acc) => Finish(acc, Lengths(seqs))
  }

  /** The N50 value found in the descending lengths, if the running sum
      reaches half the total. */
  function N50Value(desc: seq<int>, totalLen: int): Option<int> {
    match N50Index(desc, totalLen as real / 2.0, 0)
    case None => None
    case Some(k) => Some(desc[k])
  }

  /** After the loop: the two averages (dividing by the counts), then N50,
      which keeps its previous value when no running sum reaches half. */
  function Finish(acc: Summary, sizes: seq<int>): Result<Summary> {
    if |sizes| == 0 then Err(ZeroDivisionError)
    else if acc.avgGc.Float? then Err(TypeError)
    else if |acc.avgGc.xs| == 0 then Err(ZeroDivisionError)
    else
      var found := N50Value(SortDesc(sizes), acc.totalLen);
      Ok(acc.(avgContigSize := Float(Sum(sizes) as real / |sizes| as real),
              avgGc := Float(SumReal(acc.avgGc.xs) / |acc.avgGc.xs| as real),
              n50 := if found.Some? then found.value else acc.n50))
  }

  /** The CSV line: the sample, a comma and a space, then the six values
      joined by commas, floats written by `showReal`. */
  function CsvLine(sample: string, info: Summary, showReal: real -> string): string
    requires info.avgContigSize.Float? && info.avgGc.Float?
  {
    sample + ", " + Join([IntToString(info.ncontigs), showReal(info.avgContigSize.v), IntToString(info.n50),
      IntToString(info.totalLen), showReal(info.avgGc.v), IntToString(info.missingData)], ",") + "\n"
  }

  /** All contigs non-empty: the loop never raises while `avg_gc` is a
      list, and adds the lengths, the GC proportions and the `N` counts. */
  lemma {:induction false} Accumulate(info: Summary, seqs: seq<string>)
    requires info.avgGc.List?
    requires forall i :: 0 <= i < |seqs| ==> |seqs[i]| > 0
    ensures FoldResult(info, seqs, AddContig) ==
      Ok(info.(totalLen := info.totalLen + Sum(Lengths(seqs)),
               avgGc := List(info.avgGc.xs + GcRatios(seqs)),
               missingData := info.missingData + Sum(CountsOfN(seqs))))
    decreases |seqs|
  {
    if seqs == [] {
      assert info.avgGc.xs + [] == info.avgGc.xs;
    } else {
      var n := |seqs| - 1;
      Accumulate(info, seqs[..n]);
      assert info.avgGc.xs + GcRatios(seqs) == info.avgGc.xs + GcRatios(seqs[..n]) + [GcRatio(seqs[n])];
    }
  }

  /** While `avg_gc` is a list, the loop either succeeds, leaving it a
      list, or raises ZeroDivisionError. */
  lemma {:induction false} ListFold(info: Summary, seqs: seq<string>)
    requires info.avgGc.List?
    ensures FoldResult(info, seqs, AddContig) == Err(ZeroDivisionError) ||
      (FoldResult(info, seqs, AddContig).Ok? && FoldResult(info, seqs, AddContig).value.avgGc.List?)
    decreases |seqs|
  {
    if seqs != [] {
      ListFold(info, seqs[..|seqs| - 1]);
    }
  }

  /** A zero-length contig raises ZeroDivisionError while `avg_gc` is a
      list. */
  lemma {:induction false} EmptyContig(info: Summary, seqs: seq<string>, k: nat)
    requires info.avgGc.List?
    requires k < |seqs| && |seqs[k]| == 0
    ensures FoldResult(info, seqs, AddContig) == Err(ZeroDivisionError)
    decreases |seqs|
  {
    var n := |seqs| - 1;
    if k < n {
      EmptyContig(info, seqs[..n], k);
    } else {
      ListFold(info, seqs[..n]);
    }
  }

  /** The first summary over non-empty contigs: the contig count, the total
      length, the `N` count, the mean contig size, and the mean GC proportion,
      which lies in [0, 1]; N50 is found and is one of the lengths. */
  lemma FirstSummary(seqs: seq<string>)
    requires seqs != []
    requires forall i :: 0 <= i < |seqs| ==> |seqs[i]| > 0
    ensures SummaryStats(InitialSummary, seqs).Ok?
    ensures var r := SummaryStats(InitialSummary, seqs).value;
      && r.ncontigs == |seqs|
      && r.totalLen == Sum(Lengths(seqs))
      && r.missingData == Sum(CountsOfN(seqs))
      && r.avgContigSize == Float(Sum(Lengths(seqs)) as real / |seqs| as real)
      && r.avgGc == Float(SumReal(GcRatios(seqs)) / |seqs| as real)
      && 0.0 <= r.avgGc.v <= 1.0
      && N50Value(SortDesc(Lengths(seqs)), r.totalLen) == Some(r.n50)
      && r.n50 in Lengths(seqs)
  {
    var sizes := Lengths(seqs);
    N50Found(sizes);
    N50IsLength(sizes, Sum(sizes));
    FirstSummaryValue(seqs);
    MeanGcBounds(seqs);
  }

  lemma FirstSummaryValue(seqs: seq<string>)
    requires seqs != []
    requires forall i :: 0 <= i < |seqs| ==> |seqs[i]| > 0
    ensures var sizes := Lengths(seqs);
      var found := N50Value(SortDesc(sizes), Sum(sizes));
      SummaryStats(InitialSummary, seqs) ==
        Ok(Summary(|seqs|, Float(Sum(sizes) as real / |seqs| as real),
                   if found.Some? then found.value else 0, Sum(sizes),
                   Float(SumReal(GcRatios(seqs)) / |seqs| as real), Sum(CountsOfN(seqs))))
  {
    Accumulate(InitialSummary.(ncontigs := |seqs|), seqs);
    assert [] + GcRatios(seqs) == GcRatios(seqs);
  }

  /** The mean GC proportion of non-empty contigs lies in [0, 1]. */
  lemma MeanGcBounds(seqs: seq<string>)
    requires seqs != []
    requires forall i :: 0 <= i < |seqs| ==> |seqs[i]| > 0
    ensures 0.0 <= SumReal(GcRatios(seqs)) / |seqs| as real <= 1.0
  {
    var ratios := GcRatios(seqs);
    forall i | 0 <= i < |ratios| ensures 0.0 <= ratios[i] <= 1.0 {
      GcRatioBounds(seqs[i]);
    }
    SumRealUnitBounds(ratios);
    UnitRatio(SumReal(ratios), |seqs| as real);
  }

  /** With non-negative lengths, the running sum over the descending list
      reaches half the total, so N50 exists. */
  lemma N50Found(sizes: seq<int>)
    requires sizes != []
    requires forall i :: 0 <= i < |sizes| ==> sizes[i] >= 0
    ensures N50Value(SortDesc(sizes), Sum(sizes)).Some?
  {
    SumSortDesc(sizes);
    SumNatItems(sizes);
    ReachesHalf(SortDesc(sizes), Sum(sizes));
  }

  /** N50 is one of the contig lengths. */
  lemma N50IsLength(sizes: seq<int>, totalLen: int)
    requires N50Value(SortDesc(sizes), totalLen).Some?
    ensures N50Value(SortDesc(sizes), totalLen).value in sizes
  {
    SortedMember(sizes, N50Index(SortDesc(sizes), totalLen as real / 2.0, 0).value);
  }

  lemma SortedMember(xs: seq<int>, k: nat)
    requires k < |xs|
    ensures SortDesc(xs)[k] in xs
  {
    assert SortDesc(xs)[k] in multiset(SortDesc(xs));
  }

  /** The whole running sum reaches half of a non-negative total. */
  lemma ReachesHalf(desc: seq<int>, total: int)
    requires desc != [] && Sum(desc) == total && total >= 0
    ensures N50Index(desc, total as real / 2.0, 0).Some?
  {
    var last := |desc| - 1;
    assert desc[..last + 1] == desc;
    assert RunningSum(desc, last) as real >= total as real / 2.0;
  }

  /** N50 as a value of the descending lengths: the first whose running sum
      reaches half the total, every earlier running sum staying below it. */
  lemma N50Characterised(desc: seq<int>, totalLen: int)
    requires N50Value(desc, totalLen).Some?
    ensures exists k :: (0 <= k < |desc| && desc[k] == N50Value(desc, totalLen).value &&
      RunningSum(desc, k) as real >= totalLen as real / 2.0 &&
      forall j :: 0 <= j < k ==> RunningSum(desc, j) as real < totalLen as real / 2.0)
  {
    var k := N50Index(desc, totalLen as real / 2.0, 0).value;
    assert desc[k] == N50Value(desc, totalLen).value;
  }

  /** No contigs: the mean contig size divides by zero. */
  lemma NoContigs(info: Summary)
    ensures SummaryStats(info, []) == Err(ZeroDivisionError)
  {
  }

  /** A zero-length contig makes the summary raise ZeroDivisionError. */
  lemma SummaryEmptyContig(info: Summary, seqs: seq<string>, k: nat)
    requires info.avgGc.List?
    requires k < |seqs| && |seqs[k]| == 0
    ensures SummaryStats(info, seqs) == Err(ZeroDivisionError)
  {
    EmptyContig(info.(ncontigs := |seqs|), seqs, k);
  }

  /** The summary is one-shot: after a successful one, `avg_gc` is a float,
      so another raises AttributeError at its first `.append`. */
  lemma SummaryOnce(info: Summary, seqs: seq<string>)
    requires SummaryStats(info, seqs).Ok?
    ensures SummaryStats(SummaryStats(info, seqs).value, seqs) == Err(AttributeError)
  {
    var again := SummaryStats(info, seqs).value.(ncontigs := |seqs|);
    assert seqs[..0] == [];
    FoldResultStep(again, seqs, 0, AddContig);
  }

  /** The CSV line splits back into the sample and the six values, in the
      order of `summary_info`, when no value's text holds a comma. */
  lemma CsvLineFields(sample: string, info: Summary, showReal: real -> string)
    requires info.avgContigSize.Float? && info.avgGc.Float?
    requires ',' !in showReal(info.avgContigSize.v) && ',' !in showReal(info.avgGc.v)
    ensures var line := CsvLine(sample, info, showReal);
      && StartsWith(line, sample + ", ")
      && line[|line| - 1] == '\n'
      && SplitOn(line[|sample| + 2..|line| - 1], ',') ==
        [IntToString(info.ncontigs), showReal(info.avgContigSize.v), IntToString(info.n50),
         IntToString(info.totalLen), showReal(info.avgGc.v), IntToString(info.missingData)]
  {
    var values := [IntToString(info.ncontigs), showReal(info.avgContigSize.v), IntToString(info.n50),
      IntToString(info.totalLen), showReal(info.avgGc.v), IntToString(info.missingData)];
    var line := CsvLine(sample, info, showReal);
    var body := Join(values, ",");
    assert line == (sample + ", ") + body + "\n";
    assert line[|sample| + 2..|line| - 1] == body;
    IntToStringChars(info.ncontigs);
    IntToStringChars(info.n50);
    IntToStringChars(info.totalLen);
    IntToStringChars(info.missingData);
    forall i | 0 <= i < |values| ensures ',' !in values[i] {
    }
    SplitOnJoin(values, ',');
  }

  // ---------------------------------------------------------------- class

  class Assembly {
    var contigs: ODict<string, string>
    var summaryInfo: Summary
    const sample: string

    predicate Valid()
      reads this
    {
      contigs.Valid()
    }

    /** `__init__` up to the parse: the summary's initial values. */
    constructor (sampleId: string)
      ensures Valid() && contigs == Empty() && summaryInfo == InitialSummary && sample == sampleId
    {
      contigs := Empty();
      summaryInfo := InitialSummary;
      sample := sampleId;
    }

    /** `_parse_assembly` over the file's lines. */
    method ParseAssembly(lines: seq<string>) returns (err: Option<Error>)
      requires Valid()
      modifies this`contigs
      ensures err.None? <==> Contigs(lines).Ok?
      ensures err.Some? ==> err.value == Contigs(lines).error
      ensures err.None? ==> contigs == Contigs(lines).value
      ensures err.Some? ==> contigs == old(contigs)
      ensures Valid()
    {
      var header: Option<string> := None;
      var frags := Empty<string, seq<string>>();
      var i := 0;
      ghost var init := Parsing(None, Empty<string, seq<string>>());
      while i < |lines|
        invariant 0 <= i <= |lines|
        invariant ParseLines(lines[..i]) == Ok(Parsing(header, frags))
        invariant contigs == old(contigs)
      {
        ParseLinesValid(lines[..i]);
        FoldResultStep(init, lines, i, ParseLine);
        var line := lines[i];
        if Strip(line) == [] {
          // a blank line is skipped
        } else if StartsWith(line, ">") {
          header := Some(Strip(line[1..]));
          frags := frags.Put(header.value, []);
        } else if header.None? {
          return Some(KeyError);
        } else {
          frags := frags.Put(header.value, frags.m[header.value] + [Strip(line)]);
        }
        i := i + 1;
      }
      assert lines[..i] == lines;
      ParseLinesValid(lines);
      contigs := Joined(frags);
      err := None;
    }

    /** The loop of `get_summary_stats` over the contigs, giving
        `contig_size_list`. */
    method AddContigs() returns (r: Result<seq<int>>)
      requires Valid()
      modifies this`summaryInfo
      ensures match FoldResult(old(summaryInfo), contigs.Values(), AddContig)
        case Ok(acc) => r == Ok(Lengths(contigs.Values())) && summaryInfo == acc
        case Err(e) => r == Err(e)
    {
      var seqs := contigs.Values();
      ghost var start := summaryInfo;
      var contigSizeList: seq<int> := [];
      var i := 0;
      while i < |seqs|
        invariant 0 <= i <= |seqs|
        invariant contigSizeList == Lengths(seqs[..i])
        invariant FoldResult(start, seqs[..i], AddContig) == Ok(summaryInfo)
      {
        var sequence := seqs[i];
        var contigLen := |sequence|;
        FoldResultStep(start, seqs, i, AddContig);
        assert seqs[..i + 1][..i] == seqs[..i];
        contigSizeList := contigSizeList + [contigLen];
        summaryInfo := summaryInfo.(totalLen := summaryInfo.totalLen + contigLen);
        if summaryInfo.avgGc.Float? {
          return Err(AttributeError);
        }
        if contigLen == 0 {
          return Err(ZeroDivisionError);
        }
        summaryInfo := summaryInfo.(avgGc := List(summaryInfo.avgGc.xs + [(Count(sequence, 'G') + Count(sequence, 'C')) as real / contigLen as real]));
        summaryInfo := summaryInfo.(missingData := summaryInfo.missingData + Count(sequence, 'N'));
        i := i + 1;
      }
      assert seqs[..i] == seqs;
      r := Ok(contigSizeList);
    }

    /** `get_summary_stats`: fills `summary_info` and gives the CSV line. */
    method GetSummaryStats(showReal: real -> string) returns (r: Result<string>)
      requires Valid()
      modifies this`summaryInfo
      ensures r.Ok? <==> SummaryStats(old(summaryInfo), contigs.Values()).Ok?
      ensures r.Err? ==> r.error == SummaryStats(old(summaryInfo), contigs.Values()).error
      ensures r.Ok? ==> summaryInfo == SummaryStats(old(summaryInfo), contigs.Values()).value
      ensures r.Ok? ==> r.value == CsvLine(sample, summaryInfo, showReal)
    {
      summaryInfo := summaryInfo.(ncontigs := |contigs.keys|);
      var sizes := AddContigs();
      if sizes.Err? {
        return Err(sizes.error);
      }
      var contigSizeList := sizes.value;
      ghost var acc := summaryInfo;
      if |contigSizeList| == 0 {
        return Err(ZeroDivisionError);
      }
      summaryInfo := summaryInfo.(avgContigSize := Float(Sum(contigSizeList) as real / |contigSizeList| as real));
      if summaryInfo.avgGc.Float? {
        return Err(TypeError);
      }
      if |summaryInfo.avgGc.xs| == 0 {
        return Err(ZeroDivisionError);
      }
      summaryInfo := summaryInfo.(avgGc := Float(SumReal(summaryInfo.avgGc.xs) / |summaryInfo.avgGc.xs| as real));
      var found := FindN50(SortDesc(contigSizeList), summaryInfo.totalLen);
      if found.Some? {
        summaryInfo := summaryInfo.(n50 := found.value);
      }
      assert summaryInfo == Finish(acc, contigSizeList).value;
      r := Ok(CsvLine(sample, summaryInfo, showReal));
    }
  }

  /** The N50 loop: the descending lengths summed until the running sum
      reaches half the total length; `None` when it never does. */
  method FindN50(desc: seq<int>, totalLen: int) returns (found: Option<int>)
    ensures found == N50Value(desc, totalLen)
  {
    var half := totalLen as real / 2.0;
    var cumSize := 0;
    var i := 0;
    while i < |desc|
      invariant 0 <= i <= |desc|
      invariant cumSize == Sum(desc[..i])
      invariant N50Index(desc, half, 0) == N50Index(desc, half, i)
    {
      var l := desc[i];
      cumSize := cumSize + l;
      SumPrefixes(desc, i);
      if cumSize as real >= half {
        return Some(l);
      }
      i := i + 1;
    }
    return None;
  }

  /** `__init__`: a new object whose contigs are the parsed file. */
  method NewAssembly(lines: seq<string>, sampleId: string) returns (r: Result<Assembly>)
    ensures r.Ok? <==> Contigs(lines).Ok?
    ensures r.Err? ==> r.error == Contigs(lines).error
    ensures r.Ok? ==> fresh(r.value) && r.value.Valid() && r.value.sample == sampleId
    ensures r.Ok? ==> r.value.contigs == Contigs(lines).value && r.value.summaryInfo == InitialSummary
  {
    var a := new Assembly(sampleId);
    var err := a.ParseAssembly(lines);
    if err.Some? {
      return Err(err.value);
    }
    return Ok(a);
  }
}
