/** `fastqc_report.py`: the optimal trim range from the per-base sequence
    content of a FastQC data file, and the health check from a FastQC
    summary file. */
module FastqcReport {
  import opened Wrappers
  import opened Strings
  import opened Numbers
  import opened Lists
  import opened OrderedDicts

  // ---------------------------------------------------------------- trim index

  /** `set(b[i+1:i+3]) == {False}`: position `i` has a successor, and its
      next one or two positions are unbiased. */
  predicate CleanAfter(b: seq<bool>, i: nat) {
    && i + 1 < |b| && !b[i + 1]
    && (i + 2 < |b| ==> !b[i + 2])
  }

  /** A biased position that `get_trim_index` accepts as the trim point. */
  predicate TrimPoint(b: seq<bool>, i: nat) {
    i < |b| && b[i] && CleanAfter(b, i)
  }

  predicate Unbiased(b: seq<bool>) {
    forall i :: 0 <= i < |b| ==> !b[i]
  }

  /** The `for i, val in enumerate(b)` scan from position `i` on. */
  function TrimScan(b: seq<bool>, i: nat): (r: nat)
    requires i <= |b|
    ensures i <= r <= |b|
    decreases |b| - i
  {
    if i == |b| then |b|
    else if TrimPoint(b, i) then i + 1
    else TrimScan(b, i + 1)
  }

  /** `get_trim_index`. `set(b) == {False}` holds only for a non-empty list;
      the empty list reaches the final `return len(b)` instead. */
  function TrimIndex(b: seq<bool>): (r: nat)
    ensures r <= |b|
  {
    if b != [] && Unbiased(b) then 0 else TrimScan(b, 0)
  }

  /** The scan stops just past the first trim point at or after `i`, or at
      the end of the list when there is none. */
  lemma {:induction false} TrimScanFirst(b: seq<bool>, i: nat)
    requires i <= |b|
    ensures TrimScan(b, i) == |b| ==> forall j :: i <= j < |b| - 1 ==> !TrimPoint(b, j)
    ensures TrimScan(b, i) < |b| ==> i < TrimScan(b, i) && TrimPoint(b, TrimScan(b, i) - 1)
    ensures forall j :: i <= j < TrimScan(b, i) - 1 ==> !TrimPoint(b, j)
    decreases |b| - i
  {
    if i < |b| && !TrimPoint(b, i) {
      TrimScanFirst(b, i + 1);
    }
  }

  /** The trim index is 0 exactly for a list with no biased position (the
      empty list included); otherwise it lies just past the first biased
      position followed by clean ones, or is the length when there is
      none. */
  lemma {:induction false} TrimIndexSpec(b: seq<bool>)
    ensures TrimIndex(b) == 0 <==> Unbiased(b)
    ensures !Unbiased(b) && TrimIndex(b) < |b| ==> TrimPoint(b, TrimIndex(b) - 1)
    ensures !Unbiased(b) ==> forall j :: 0 <= j < TrimIndex(b) - 1 ==> !TrimPoint(b, j)
    ensures !Unbiased(b) && TrimIndex(b) == |b| ==> forall j :: 0 <= j < |b| ==> !TrimPoint(b, j)
  {
    TrimScanFirst(b, 0);
    if !Unbiased(b) {
      assert !TrimPoint(b, |b| - 1);
    }
  }

  /** The list that the function's documentation walks through trims at 5,
      and a biased position followed by a single unbiased last one
      qualifies. */
  lemma TrimIndexExamples()
    ensures TrimIndex([true, true, false, true, true, false, false, false, false]) == 5
    ensures TrimIndex([true, false]) == 1
    ensures TrimIndex([true, true]) == 2
  {
    var b := [true, true, false, true, true, false, false, false, false];
    assert !TrimPoint(b, 0) && !TrimPoint(b, 1) && !TrimPoint(b, 2) && !TrimPoint(b, 3) && TrimPoint(b, 4);
    assert TrimPoint([true, false], 0);
    assert !TrimPoint([true, true], 0) && !TrimPoint([true, true], 1);
  }

  // ----------------------------------------------------------- trim range

  const TargetNucBias := ">>Per base sequence content"
  const EndModule := ">>END_MODULE"

  /** The bias of one data line `base g a t c`: biased unless both
      (g + 0.1) / (c + 0.1) and (a + 0.1) / (t + 0.1) lie in [0.8, 1.2]. */
  function Bias(line: string): Result<bool> {
    var fields := SplitWs(Strip(line));
    if |fields| != 5 then Err(ValueError)
    else
      match (ParseReal(fields[1]), ParseReal(fields[2]), ParseReal(fields[3]), ParseReal(fields[4]))
      case (Some(g), Some(a), Some(t), Some(c)) =>
        if c + 0.1 == 0.0 || t + 0.1 == 0.0 then Err(ZeroDivisionError)
        else
          var gc := (g + 0.1) / (c + 0.1);
          var at := (a + 0.1) / (t + 0.1);
          Ok(!(0.8 <= gc <= 1.2 && 0.8 <= at <= 1.2))
      case _ => Err(ValueError)
  }

  /** What the line loop of `trim_range` gathers from line `i` on, given
      the `gather` flag, the list gathered so far and the bias of a data
      line. The target header also consumes the comment line after it
      (`next(fh)`, which raises at the end of the file). */
  function Gather(lines: seq<string>, i: nat, gather: bool, biased: seq<bool>, bias: string -> Result<bool>): Result<seq<bool>>
    requires i <= |lines|
    decreases |lines| - i
  {
    if i == |lines| then Ok(biased)
    else if StartsWith(lines[i], TargetNucBias) then
      if i + 1 == |lines| then Err(StopIteration) else Gather(lines, i + 2, true, biased, bias)
    else if StartsWith(lines[i], EndModule) && gather then Ok(biased)
    else if gather then
      match bias(lines[i])
      case Err(e) => Err(e)
      case Ok(x) => Gather(lines, i + 1, true, biased + [x], bias)
    else Gather(lines, i + 1, false, biased, bias)
  }

  /** The biased list `trim_range` builds from a data file. */
  function Biased(lines: seq<string>): Result<seq<bool>> {
    Gather(lines, 0, false, [], Bias)
  }

  /** Lines before the target header are passed over. */
  lemma {:induction false} GatherSkips(lines: seq<string>, i: nat, h: nat, bias: string -> Result<bool>)
    requires i <= h < |lines| - 1 && StartsWith(lines[h], TargetNucBias)
    requires forall k :: i <= k < h ==> !StartsWith(lines[k], TargetNucBias)
    ensures Gather(lines, i, false, [], bias) == Gather(lines, h + 2, true, [], bias)
    decreases h - i
  {
    if i < h {
      GatherSkips(lines, i + 1, h, bias);
    }
  }

  lemma EndIsNotTarget(line: string)
    requires StartsWith(line, EndModule)
    ensures !StartsWith(line, TargetNucBias)
  {
    assert line[2] == EndModule[2] == 'E';
  }

  /** Inside the module, each data line adds its bias, up to the end line
      at `j`; `bs` holds the biases of the lines from `base` on. */
  lemma {:induction false} GatherRun(lines: seq<string>, base: nat, i: nat, j: nat, bs: seq<bool>, bias: string -> Result<bool>)
    requires base <= i <= j < |lines| && StartsWith(lines[j], EndModule)
    requires forall k :: i <= k < j ==> !StartsWith(lines[k], TargetNucBias) && !StartsWith(lines[k], EndModule)
    requires |bs| == j - base && forall k :: i <= k < j ==> bias(lines[k]) == Ok(bs[k - base])
    ensures Gather(lines, i, true, bs[..i - base], bias) == Ok(bs)
    decreases j - i
  {
    if i == j {
      EndIsNotTarget(lines[j]);
      assert bs[..i - base] == bs;
    } else {
      assert bs[..i - base] + [bs[i - base]] == bs[..i + 1 - base];
      GatherRun(lines, base, i + 1, j, bs, bias);
    }
  }

  /** From the first data line after the header at `h` and its comment
      line to the end line at `j`, the biased list holds the data lines'
      biases in order. */
  lemma GatherBody(lines: seq<string>, h: nat, j: nat, bs: seq<bool>, bias: string -> Result<bool>)
    requires h + 2 <= j < |lines| && StartsWith(lines[j], EndModule)
    requires forall k :: h + 2 <= k < j ==> !StartsWith(lines[k], TargetNucBias) && !StartsWith(lines[k], EndModule)
    requires |bs| == j - (h + 2) && forall k :: h + 2 <= k < j ==> bias(lines[k]) == Ok(bs[k - (h + 2)])
    ensures Gather(lines, h + 2, true, [], bias) == Ok(bs)
  {
    GatherRun(lines, h + 2, h + 2, j, bs, bias);
    assert bs[..0] == [];
  }

  /** For a file whose first target header sits at `h`, followed by a
      comment line, data lines and an end line at `j`, the biased list holds
      the data lines' biases in order. */
  lemma GatherModule(lines: seq<string>, h: nat, j: nat, bs: seq<bool>, bias: string -> Result<bool>)
    requires h + 2 <= j < |lines|
    requires StartsWith(lines[h], TargetNucBias) && StartsWith(lines[j], EndModule)
    requires forall k :: 0 <= k < h ==> !StartsWith(lines[k], TargetNucBias)
    requires forall k :: h + 2 <= k < j ==> !StartsWith(lines[k], TargetNucBias) && !StartsWith(lines[k], EndModule)
    requires |bs| == j - (h + 2) && forall k :: h + 2 <= k < j ==> bias(lines[k]) == Ok(bs[k - (h + 2)])
    ensures Gather(lines, 0, false, [], bias) == Ok(bs)
  {
    GatherSkips(lines, 0, h, bias);
    GatherBody(lines, h, j, bs, bias);
  }

  /** A file without the target module yields an empty biased list. */
  lemma {:induction false} BiasedWithoutModule(lines: seq<string>, i: nat)
    requires i <= |lines|
    requires forall k :: i <= k < |lines| ==> !StartsWith(lines[k], TargetNucBias)
    ensures Gather(lines, i, false, [], Bias) == Ok([])
    decreases |lines| - i
  {
    if i < |lines| {
      BiasedWithoutModule(lines, i + 1);
    }
  }

  /** The trims as `trim_range` composes them: the "5' half" is
      `biased[:int(len(biased))]`, the whole list, and the "3' half" is
      `biased[int(len(biased)):]`, which is empty. */
  function TrimsAsWritten(b: seq<bool>): (r: (nat, nat))
    ensures r.0 <= r.1
  {
    var n := |b|;
    (TrimIndex(b[..n]), n - TrimIndex(Reverse(b[n..])))
  }

  /** As written the 3' trim never removes anything, and the 5' trim is
      the trim index of the whole list: zero exactly when no position is
      biased. */
  lemma TrimsAsWrittenKeepsThreeEnd(b: seq<bool>)
    ensures TrimsAsWritten(b) == (TrimIndex(b), |b|)
    ensures TrimsAsWritten(b).0 == 0 <==> Unbiased(b)
  {
    assert b[..|b|] == b;
    assert Reverse(b[|b|..]) == [];
    TrimIndexSpec(b);
  }

  /** A list whose only biased position is the last: as written the 5'
      scan runs off the end and trims everything while the 3' end keeps
      it; split in halves, only that position is trimmed. */
  lemma TrimsAsWrittenMissesThreeEnd()
    ensures TrimsAsWritten([false, false, false, true]) == (4, 4)
    ensures Trims([false, false, false, true]) == (0, 3)
  {
    var b := [false, false, false, true];
    TrimsAsWrittenKeepsThreeEnd(b);
    assert b[3];
    assert TrimScan(b, 3) == 4;
    assert TrimScan(b, 0) == 4;
    assert Unbiased(b[..2]);
    var r := Reverse(b[2..]);
    assert r == [true, false];
    assert TrimPoint(r, 0);
  }

  /** The trims with the list split in halves, as the comment beside the
      split in `trim_range` describes: the 5' trim scans the first half,
      the 3' trim scans the reversed second half from the end. */
  function Trims(b: seq<bool>): (r: (nat, nat))
    ensures r.0 <= |b| / 2 <= r.1 <= |b|
  {
    var h := |b| / 2;
    (TrimIndex(b[..h]), |b| - TrimIndex(Reverse(b[h..])))
  }

  /** A trim is zero exactly when its half has no biased position. */
  lemma TrimsNone(b: seq<bool>)
    ensures Trims(b).0 == 0 <==> Unbiased(b[..|b| / 2])
    ensures Trims(b).1 == |b| <==> Unbiased(b[|b| / 2..])
  {
    var h := |b| / 2;
    TrimIndexSpec(b[..h]);
    var r := Reverse(b[h..]);
    TrimIndexSpec(r);
    if Unbiased(r) {
      forall i | 0 <= i < |b[h..]| ensures !b[h..][i] {
        assert r[|r| - 1 - i] == b[h..][i];
      }
    }
  }

  /** Reading an even-length list backwards swaps the roles of the two
      ends. */
  lemma TrimsMirror(b: seq<bool>)
    requires |b| % 2 == 0
    ensures Trims(Reverse(b)) == (|b| - Trims(b).1, |b| - Trims(b).0)
  {
    var h := |b| / 2;
    var r := Reverse(b);
    assert r[..h] == Reverse(b[h..]);
    assert Reverse(r[h..]) == b[..h];
  }

  /** `trim_range`: the file's (5' trim, 3' trim), the trims composed as
      written. */
  function TrimRangeOf(lines: seq<string>): Result<(nat, nat)> {
    match Biased(lines)
    case Err(e) => Err(e)
    case Ok(b) => Ok(TrimsAsWritten(b))
  }

  /** The range is read iff the biased list is, and then its 3' end is the
      length of that list and its 5' end is zero iff no position is
      biased. */
  lemma TrimRangeSpec(lines: seq<string>)
    ensures TrimRangeOf(lines).Ok? <==> Biased(lines).Ok?
    ensures Biased(lines).Err? ==> TrimRangeOf(lines) == Err(Biased(lines).error)
    ensures Biased(lines).Ok? ==>
      var b := Biased(lines).value; var t := TrimRangeOf(lines).value;
      && t == (TrimIndex(b), |b|)
      && (t.0 == 0 <==> Unbiased(b))
  {
    if Biased(lines).Ok? {
      TrimsAsWrittenKeepsThreeEnd(Biased(lines).value);
    }
  }

  /** `trim_range` over the file's lines. */
  method TrimRange(lines: seq<string>) returns (r: Result<(nat, nat)>)
    ensures r == TrimRangeOf(lines)
  {
    var gather := false;
    var biased: seq<bool> := [];
    var i := 0;
    while i < |lines|
      invariant i <= |lines|
      invariant Gather(lines, i, gather, biased, Bias) == Biased(lines)
      decreases |lines| - i
    {
      var line := lines[i];
      if StartsWith(line, TargetNucBias) {
        if i + 1 == |lines| {
          return Err(StopIteration);
        }
        i := i + 2;
        gather := true;
      } else if StartsWith(line, EndModule) && gather {
        break;
      } else if gather {
        var x := Bias(line);
        if x.Err? {
          return Err(x.error);
        }
        biased := biased + [x.value];
        i := i + 1;
      } else {
        i := i + 1;
      }
    }
    r := Ok(TrimsAsWritten(biased));
  }

  /** `get_sample_trim` on the two pairs' ranges: the larger 5' trim and
      the smaller 3' trim. */
  function SampleTrim(p1: (nat, nat), p2: (nat, nat)): (r: (nat, nat))
    ensures r.0 >= p1.0 && r.0 >= p2.0 && (r.0 == p1.0 || r.0 == p2.0)
    ensures r.1 <= p1.1 && r.1 <= p2.1 && (r.1 == p1.1 || r.1 == p2.1)
  {
    (if p1.0 >= p2.0 then p1.0 else p2.0, if p1.1 <= p2.1 then p1.1 else p2.1)
  }

  /** `get_sample_trim` over the two data files; the first file is read
      first, so its error wins. */
  method GetSampleTrim(p1Data: seq<string>, p2Data: seq<string>) returns (r: Result<(nat, nat)>)
    ensures r.Ok? <==> TrimRangeOf(p1Data).Ok? && TrimRangeOf(p2Data).Ok?
    ensures TrimRangeOf(p1Data).Err? ==> r == Err(TrimRangeOf(p1Data).error)
    ensures TrimRangeOf(p1Data).Ok? && TrimRangeOf(p2Data).Err? ==> r == Err(TrimRangeOf(p2Data).error)
    ensures r.Ok? ==> r.value == SampleTrim(TrimRangeOf(p1Data).value, TrimRangeOf(p2Data).value)
  {
    var r1 := TrimRange(p1Data);
    if r1.Err? {
      return Err(r1.error);
    }
    var r2 := TrimRange(p2Data);
    if r2.Err? {
      return Err(r2.error);
    }
    r := Ok(SampleTrim(r1.value, r2.value));
  }

  // ------------------------------------------------------------ summary

  /** A line that `get_summary` does not skip. */
  predicate Filled(line: string) {
    Strip(line) != []
  }

  /** The line has a second tab-separated field, `fields[1]`. */
  predicate HasCategory(line: string) {
    |SplitOn(line, '\t')| >= 2
  }

  /** The category a line files its result under (its stripped second
      field). */
  function SummaryKey(line: string): string {
    if HasCategory(line) then Strip(SplitOn(line, '\t')[1]) else []
  }

  /** The result a line records (its stripped first field). */
  function SummaryResult(line: string): string {
    Strip(SplitOn(line, '\t')[0])
  }

  /** The tab-separated line `result  category  file` as `(category, result)`. */
  function SummaryEntry(line: string): Result<(string, string)> {
    if HasCategory(line) then Ok((SummaryKey(line), SummaryResult(line))) else Err(IndexError)
  }

  /** `get_summary`: category to result, for the lines that are not blank. */
  function Summary(lines: seq<string>): Result<ODict<string, string>> {
    CollectPairs(Filter(lines, Filled), SummaryEntry)
  }

  method GetSummary(lines: seq<string>) returns (r: Result<ODict<string, string>>)
    ensures r == Summary(lines)
  {
    var info := Empty<string, string>();
    var i := 0;
    assert lines[..0] == [];
    while i < |lines|
      invariant i <= |lines|
      invariant CollectPairs(Filter(lines[..i], Filled), SummaryEntry) == Ok(info)
    {
      CollectKeptStep(lines, i, Filled, SummaryEntry);
      var line := lines[i];
      if Strip(line) != [] {
        var fields := SplitOn(line, '\t');
        if |fields| < 2 {
          return Err(IndexError);
        }
        info := info.Put(Strip(fields[1]), Strip(fields[0]));
      }
      i := i + 1;
    }
    assert lines[..i] == lines;
    r := Ok(info);
  }

  /** The summary exists iff every non-blank line has a tab. */
  lemma SummaryOk(lines: seq<string>)
    ensures Summary(lines).Ok? <==> forall l :: l in lines && Filled(l) ==> HasCategory(l)
  {
    var fs := Filter(lines, Filled);
    FilterMembers(lines, Filled);
    CollectPairsContents(fs, SummaryEntry);
    if Summary(lines).Ok? {
      forall l | l in lines && Filled(l) ensures HasCategory(l) {
        var i :| 0 <= i < |fs| && fs[i] == l;
        assert SummaryEntry(fs[i]).Ok?;
      }
    } else {
      var i :| 0 <= i < |fs| && SummaryEntry(fs[i]).Err?;
      assert fs[i] in lines && Filled(fs[i]) && !HasCategory(fs[i]);
    }
  }

  /** Its categories are those of the non-blank lines. */
  lemma SummaryKeys(lines: seq<string>)
    requires Summary(lines).Ok?
    ensures Summary(lines).value.m.Keys == set l | l in lines && Filled(l) :: SummaryKey(l)
  {
    CollectPairsKeyed(Filter(lines, Filled), SummaryEntry, SummaryKey);
    FilterKeys(lines, Filled, SummaryKey);
  }

  /** A category holds the result of the last non-blank line that names
      it. */
  lemma SummaryLast(lines: seq<string>, i: nat)
    requires Summary(lines).Ok?
    requires var fs := Filter(lines, Filled);
      i < |fs| && forall j :: i < j < |fs| ==> SummaryKey(fs[j]) != SummaryKey(fs[i])
    ensures var fs := Filter(lines, Filled); var d := Summary(lines).value;
      SummaryKey(fs[i]) in d.m && d.m[SummaryKey(fs[i])] == SummaryResult(fs[i])
  {
    var fs := Filter(lines, Filled);
    CollectPairsKeyed(fs, SummaryEntry, SummaryKey);
    assert SummaryKey(fs[i]) in set j | 0 <= j < |fs| :: SummaryKey(fs[j]);
  }

  // ----------------------------------------------------------- health

  const FailSensitive: seq<string> := [
    "Per base sequence quality",
    "Overrepresented sequences",
    "Sequence Length Distribution",
    "Per sequence GC content"
  ]

  const MustPass: seq<string> := [
    "Per base N content",
    "Adapter Content"
  ]

  /** A category result that makes `check_summary_health` return False. */
  predicate Unhealthy(cat: string, test: string) {
    || (cat in FailSensitive && test == "FAIL")
    || (cat in MustPass && test != "PASS")
  }

  /** The `for cat, test in summary_info.items()` scan with its early
      returns. */
  function HealthyItems(ps: seq<(string, string)>): bool {
    if ps == [] then true
    else if Unhealthy(ps[0].0, ps[0].1) then false
    else HealthyItems(ps[1..])
  }

  /** The scan passes iff no item is unhealthy. */
  lemma {:induction false} HealthyItemsSpec(ps: seq<(string, string)>)
    ensures HealthyItems(ps) <==> forall i :: 0 <= i < |ps| ==> !Unhealthy(ps[i].0, ps[i].1)
  {
    if ps != [] {
      HealthyItemsSpec(ps[1..]);
      assert forall i :: 1 <= i < |ps| ==> ps[i] == ps[1..][i - 1];
    }
  }

  /** `check_summary_health`: the health flag beside the summary it read. */
  function CheckSummaryHealth(lines: seq<string>): (r: Result<(bool, ODict<string, string>)>)
    ensures r.Ok? <==> Summary(lines).Ok?
    ensures r.Ok? ==> r.value.1 == Summary(lines).value && r.value.1.Valid()
  {
    match Summary(lines)
    case Err(e) => Err(e)
    case Ok(d) => Ok((HealthyItems(d.Items()), d))
  }

  /** The sample is healthy iff no category present in the summary is a
      fail-sensitive one that failed or a must-pass one that did not pass;
      categories the summary lacks are never checked. */
  lemma SummaryHealthSpec(lines: seq<string>)
    requires CheckSummaryHealth(lines).Ok?
    ensures var d := Summary(lines).value;
      CheckSummaryHealth(lines).value.0 <==> forall k :: k in d.m ==> !Unhealthy(k, d.m[k])
  {
    var d := Summary(lines).value;
    var ps := d.Items();
    HealthyItemsSpec(ps);
    if forall i :: 0 <= i < |ps| ==> !Unhealthy(ps[i].0, ps[i].1) {
      forall k | k in d.m ensures !Unhealthy(k, d.m[k]) {
        var i :| 0 <= i < |d.keys| && d.keys[i] == k;
        assert ps[i] == (k, d.m[k]);
      }
    }
  }
}
