/** mashscreen2json.py: `mash screen` hits kept when their median
    multiplicity is strictly above the median over all hits, with an
    estimated copy number. */
module MashScreen2Json {
  import opened Wrappers
  import opened Strings
  import opened Numbers
  import opened OrderedDicts
  import opened Stats

  /** What `dic` holds for a query id: the identity and median-multiplicity
      columns as text, and the float of the latter (`float(v[1])`, which
      the script computes again from the same text). */
  datatype Hit = Hit(identity: string, multiplicity: string, mult: real)

  /** One line: identity is column 0, multiplicity column 2, query id
      column 4 (IndexError below five columns, ValueError when column 2 is
      not a float). */
  function ScreenEntry(line: string): Result<(string, Hit)> {
    ColumnsHit(SplitOn(line, '\t'))
  }

  function ColumnsHit(cols: seq<string>): Result<(string, Hit)> {
    if |cols| < 5 then Err(IndexError)
    else match ParseReal(cols[2])
      case None => Err(ValueError)
      case Some(v) => Ok((cols[4], Hit(cols[0], cols[2], v)))
  }

  /** `dic` after the first loop. */
  function Dic(lines: seq<string>): (r: Result<ODict<string, Hit>>)
    ensures r.Ok? ==> r.value.Valid()
  {
    CollectPairs(lines, ScreenEntry)
  }

  function Mults(es: seq<(string, Hit)>): (r: seq<real>)
    ensures |r| == |es| && forall i :: 0 <= i < |es| ==> r[i] == es[i].1.mult
    decreases |es|
  {
    if es == [] then [] else Mults(es[..|es| - 1]) + [es[|es| - 1].1.mult]
  }

  /** `median_list` after the first loop. */
  function MedianList(lines: seq<string>): seq<real>
    requires Dic(lines).Ok?
  {
    Mults(MapResult(lines, ScreenEntry).value)
  }

  /** `median_list` holds every line's multiplicity, also for query ids
      that repeat. */
  lemma {:induction false} MedianListAllLines(lines: seq<string>)
    requires Dic(lines).Ok?
    ensures |MedianList(lines)| == |lines|
    ensures forall i :: 0 <= i < |lines| ==> MedianList(lines)[i] == ScreenEntry(lines[i]).value.1.mult
  {
    CollectPairsContents(lines, ScreenEntry);
  }

  /** The first loop of `main`, filling `dic` and `median_list`. */
  method FirstPass(lines: seq<string>) returns (r: Result<(ODict<string, Hit>, seq<real>)>)
    ensures r.Ok? <==> Dic(lines).Ok?
    ensures r.Ok? ==> r.value.0 == Dic(lines).value && r.value.1 == MedianList(lines)
    ensures r.Err? ==> r.error == Dic(lines).error
  {
    var dic := Empty<string, Hit>();
    var medianList: seq<real> := [];
    var i := 0;
    while i < |lines|
      invariant 0 <= i <= |lines|
      invariant Dic(lines[..i]) == Ok(dic)
      invariant medianList == MedianList(lines[..i])
    {
      var e := ScreenEntry(lines[i]);
      FirstPassStep(lines, i);
      if e.Err? {
        return Err(e.error);
      }
      dic := dic.Put(e.value.0, e.value.1);
      medianList := medianList + [e.value.1.mult];
      i := i + 1;
    }
    assert lines[..i] == lines;
    r := Ok((dic, medianList));
  }

  lemma FirstPassStep(lines: seq<string>, i: nat)
    requires i < |lines| && Dic(lines[..i]).Ok?
    ensures ScreenEntry(lines[i]).Err? ==> Dic(lines) == Err(ScreenEntry(lines[i]).error)
    ensures ScreenEntry(lines[i]).Ok? ==>
      && Dic(lines[..i + 1]) == Ok(Dic(lines[..i]).value.Put(ScreenEntry(lines[i]).value.0, ScreenEntry(lines[i]).value.1))
      && MedianList(lines[..i + 1]) == MedianList(lines[..i]) + [ScreenEntry(lines[i]).value.1.mult]
  {
    CollectPairsStep(lines, i, ScreenEntry);
    MapResultStep(lines, i, ScreenEntry);
    var e := ScreenEntry(lines[i]);
    if e.Ok? {
      var pre := MapResult(lines[..i], ScreenEntry).value;
      assert MapResult(lines[..i + 1], ScreenEntry).value == pre + [e.value];
      assert (pre + [e.value])[..|pre|] == pre;
    }
  }

  /** `int(float(v[1]) / median_cutoff)` */
  function CopyNumber(mult: real, cutoff: real): int
    requires cutoff != 0.0
  {
    Trunc(mult / cutoff)
  }

  /** What `filtered_dic` receives for a kept query: the query id cut to
      three '_' fields, the identity and the copy number as text. */
  function Row(q: string, h: Hit, cutoff: real): (string, (string, string))
    requires cutoff != 0.0
  {
    (FirstFields(q, '_', 3), (h.identity, IntToString(CopyNumber(h.mult, cutoff))))
  }

  /** The second loop keeps a hit whose multiplicity is strictly above the
      cutoff. */
  function KeepHit(cutoff: real): ((string, Hit)) -> bool {
    (p: (string, Hit)) => p.1.mult > cutoff
  }

  function HitRow(cutoff: real): ((string, Hit)) -> (string, (string, string))
    requires cutoff != 0.0
  {
    (p: (string, Hit)) => Row(p.0, p.1, cutoff)
  }

  /** `filtered_dic` after the second loop has seen the first `n` entries
      of `dic`. */
  function Filtering(dic: ODict<string, Hit>, cutoff: real, n: nat): (d: ODict<string, (string, string)>)
    requires dic.Valid() && cutoff != 0.0 && n <= |dic.keys|
    ensures d.Valid()
  {
    PutWhere(dic.Items()[..n], KeepHit(cutoff), HitRow(cutoff))
  }

  /** `filtered_dic` after the second loop: ZeroDivisionError when the
      cutoff is 0 and there is an entry to divide. */
  function Filtered(dic: ODict<string, Hit>, cutoff: real): Result<ODict<string, (string, string)>>
    requires dic.Valid()
  {
    if cutoff == 0.0 then
      if dic.keys != [] then Err(ZeroDivisionError) else Ok(Empty())
    else Ok(Filtering(dic, cutoff, |dic.keys|))
  }

  /** The second loop of `main`. */
  method SecondPass(dic: ODict<string, Hit>, cutoff: real) returns (r: Result<ODict<string, (string, string)>>)
    requires dic.Valid()
    ensures r == Filtered(dic, cutoff)
  {
    var out := Empty<string, (string, string)>();
    var i := 0;
    while i < |dic.keys|
      invariant 0 <= i <= |dic.keys|
      invariant cutoff != 0.0 || i == 0
      invariant cutoff != 0.0 ==> out == Filtering(dic, cutoff, i)
      invariant cutoff == 0.0 ==> out == Empty()
    {
      var q := dic.keys[i];
      var h := dic.m[q];
      if cutoff == 0.0 {
        return Err(ZeroDivisionError);
      }
      var copyNumber := CopyNumber(h.mult, cutoff);
      PutWhereStep(dic.Items(), i, KeepHit(cutoff), HitRow(cutoff));
      if h.mult > cutoff {
        out := out.Put(FirstFields(q, '_', 3), (h.identity, IntToString(copyNumber)));
      }
      i := i + 1;
    }
    assert cutoff != 0.0 ==> dic.Items()[..i] == dic.Items();
    r := Ok(out);
  }

  /** Each output key holds the identity and copy number of a hit strictly
      above the cutoff whose cut query id is that key. */
  lemma FilteredFrom(dic: ODict<string, Hit>, cutoff: real, k: string)
    requires dic.Valid() && cutoff != 0.0
    requires k in Filtered(dic, cutoff).value.m
    ensures exists q :: q in dic.m && dic.m[q].mult > cutoff && Row(q, dic.m[q], cutoff) == (k, Filtered(dic, cutoff).value.m[k])
  {
    var items := dic.Items();
    var keep, row := KeepHit(cutoff), HitRow(cutoff);
    assert items[..|items|] == items;
    PutWhereFrom(items, keep, row);
    var i :| 0 <= i < |items| && keep(items[i]) && row(items[i]) == (k, Filtered(dic, cutoff).value.m[k]);
    assert dic.keys[i] in dic.m;
  }

  /** The hit of the `i`-th query id is in the output, under its cut query
      id, when it is strictly above the cutoff; and it is the value stored
      there unless a later kept query id cuts to the same key. */
  lemma FilteredHas(dic: ODict<string, Hit>, cutoff: real, i: nat)
    requires dic.Valid() && cutoff != 0.0 && i < |dic.keys|
    requires dic.m[dic.keys[i]].mult > cutoff
    ensures FirstFields(dic.keys[i], '_', 3) in Filtered(dic, cutoff).value.m
    ensures (forall j :: i < j < |dic.keys| && dic.m[dic.keys[j]].mult > cutoff ==>
        FirstFields(dic.keys[j], '_', 3) != FirstFields(dic.keys[i], '_', 3))
      ==> Filtered(dic, cutoff).value.m[FirstFields(dic.keys[i], '_', 3)] == Row(dic.keys[i], dic.m[dic.keys[i]], cutoff).1
  {
    var items := dic.Items();
    var keep, row := KeepHit(cutoff), HitRow(cutoff);
    assert items[..|items|] == items;
    PutWhereKeys(items, keep, row);
    assert row(items[i]).0 in (set j | 0 <= j < |items| && keep(items[j]) :: row(items[j]).0);
    if forall j :: i < j < |items| && keep(items[j]) ==> row(items[j]).0 != row(items[i]).0 {
      PutWhereLast(items, keep, row, i);
    }
  }

  /** The output's keys are the cut query ids of the hits strictly above
      the cutoff. */
  lemma {:induction false} FilteredKeys(dic: ODict<string, Hit>, cutoff: real)
    requires dic.Valid() && cutoff != 0.0
    ensures Filtered(dic, cutoff).value.m.Keys ==
      set q | q in dic.m && dic.m[q].mult > cutoff :: FirstFields(q, '_', 3)
  {
    var out := Filtered(dic, cutoff).value;
    var rhs := set q | q in dic.m && dic.m[q].mult > cutoff :: FirstFields(q, '_', 3);
    forall k | k in rhs ensures k in out.m {
      var q :| q in dic.m && dic.m[q].mult > cutoff && k == FirstFields(q, '_', 3);
      assert q in (set i | 0 <= i < |dic.keys| :: dic.keys[i]);
      var i :| 0 <= i < |dic.keys| && dic.keys[i] == q;
      FilteredHas(dic, cutoff, i);
    }
    forall k | k in out.m ensures k in rhs {
      FilteredFrom(dic, cutoff, k);
    }
  }

  /** A kept hit has a copy number of at least 1 when the cutoff is
      positive. */
  lemma CopyNumberAtLeastOne(mult: real, cutoff: real)
    requires cutoff > 0.0 && mult > cutoff
    ensures CopyNumber(mult, cutoff) >= 1
  {
    assert mult / cutoff > 1.0;
  }

  /** The whole of `main` before writing: first loop, median of all
      multiplicities (StatisticsError on no lines), second loop. */
  function ScreenJson(lines: seq<string>): Result<ODict<string, (string, string)>> {
    match Dic(lines)
    case Err(e) => Err(e)
    case Ok(dic) =>
      match Median(MedianList(lines))
      case Err(e) => Err(e)
      case Ok(cutoff) => Filtered(dic, cutoff)
  }

  method RunScreen(lines: seq<string>) returns (r: Result<ODict<string, (string, string)>>)
    ensures r == ScreenJson(lines)
  {
    var first := FirstPass(lines);
    if first.Err? {
      return Err(first.error);
    }
    var (dic, medianList) := first.value;
    var cutoff := Median(medianList);
    if cutoff.Err? {
      return Err(cutoff.error);
    }
    r := SecondPass(dic, cutoff.value);
  }

  /** Empty input raises StatisticsError; a cutoff of 0 with any input
      raises ZeroDivisionError, since the copy number is computed before
      the comparison. */
  lemma {:induction false} ScreenJsonErrors(lines: seq<string>)
    requires Dic(lines).Ok?
    ensures lines == [] ==> ScreenJson(lines) == Err(StatisticsError)
    ensures lines != [] && Median(MedianList(lines)) == Ok(0.0) ==> ScreenJson(lines) == Err(ZeroDivisionError)
  {
    if lines != [] {
      CollectPairsContents(lines, ScreenEntry);
      var es := MapResult(lines, ScreenEntry).value;
      FromPairsKeys(es);
      assert es[0].0 in Dic(lines).value.m;
    }
  }
}
