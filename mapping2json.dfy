/** `mapping2json.py`: `depthfilereader` turns a samtools depth file into
    the share of each plasmid's bases that reads cover, keeping the
    plasmids at or above a cutoff. */
module Mapping2Json {
  import opened Wrappers
  import opened Strings
  import opened Numbers
  import opened OrderedDicts

  /** One depth line: the reference key, the position as text, the depth. */
  datatype DepthRow = DepthRow(reference: string, position: string, depth: real)

  /** A depth line split on whitespace: the reference is the first three
      `_`-separated parts of the first column, the position the second
      column and the depth the float of the third (its `rstrip("\n")` has
      nothing to remove from a whitespace-free token). */
  function DepthLine(line: string): Result<DepthRow> {
    var tabSplit := SplitWs(line);
    if |tabSplit| < 3 then Err(IndexError)
    else match ParseReal(tabSplit[2])
      case None => Err(ValueError)
      case Some(v) => Ok(DepthRow(FirstFields(Strip(tabSplit[0]), '_', 3), tabSplit[1], v))
  }

  /** `depth_dic_coverage`: per reference, in order of first appearance,
      the depth last seen at each position. Positions are told apart by
      their text. */
  function Nest(rows: seq<DepthRow>): (d: ODict<string, map<string, real>>)
    ensures d.Valid()
  {
    if rows == [] then Empty()
    else
      var n := |rows| - 1;
      var d := Nest(rows[..n]);
      var e := rows[n];
      var inner := if e.reference in d.m then d.m[e.reference] else map[];
      d.Put(e.reference, inner[e.position := e.depth])
  }

  /** The positions the rows give for `ref`. */
  function PositionsOf(rows: seq<DepthRow>, ref: string): set<string> {
    set i | 0 <= i < |rows| && rows[i].reference == ref :: rows[i].position
  }

  lemma PositionsSnoc(rows: seq<DepthRow>, ref: string)
    requires rows != []
    ensures PositionsOf(rows, ref) ==
      PositionsOf(rows[..|rows| - 1], ref) + (if rows[|rows| - 1].reference == ref then {rows[|rows| - 1].position} else {})
  {
    var n := |rows| - 1;
    var pre := rows[..n];
    assert forall i :: 0 <= i < n ==> pre[i] == rows[i];
    var whole := PositionsOf(rows, ref);
    var parts := PositionsOf(pre, ref) + (if rows[n].reference == ref then {rows[n].position} else {});
    forall p | p in whole ensures p in parts {
      var i :| 0 <= i < |rows| && rows[i].reference == ref && rows[i].position == p;
      if i < n {
        assert pre[i].reference == ref && pre[i].position == p;
      }
    }
    forall p | p in parts ensures p in whole {
      if p in PositionsOf(pre, ref) {
        var i :| 0 <= i < n && pre[i].reference == ref && pre[i].position == p;
        assert rows[i].reference == ref && rows[i].position == p;
      } else {
        assert rows[n].reference == ref && rows[n].position == p;
      }
    }
  }

  /** One more row. */
  lemma NestSnoc(rows: seq<DepthRow>, e: DepthRow)
    ensures var d := Nest(rows); var inner := if e.reference in d.m then d.m[e.reference] else map[];
      Nest(rows + [e]) == d.Put(e.reference, inner[e.position := e.depth])
  {
    assert (rows + [e])[..|rows|] == rows;
  }

  /** The table holds exactly the references that occur. */
  lemma {:induction false} NestKeys(rows: seq<DepthRow>)
    ensures forall k :: k in Nest(rows).m <==> exists i :: 0 <= i < |rows| && rows[i].reference == k
  {
    if rows != [] {
      var n := |rows| - 1;
      var pre := rows[..n];
      NestKeys(pre);
      assert rows == pre + [rows[n]];
      NestSnoc(pre, rows[n]);
      forall k ensures k in Nest(rows).m <==> exists i :: 0 <= i < |rows| && rows[i].reference == k {
        if k in Nest(rows).m && k != rows[n].reference {
          var i :| 0 <= i < n && pre[i].reference == k;
          assert rows[i].reference == k;
        }
        if k !in Nest(rows).m {
          forall i | 0 <= i < |rows| ensures rows[i].reference != k {
            if i < n {
              assert pre[i] == rows[i];
            }
          }
        }
      }
    }
  }

  /** Each reference holds exactly the positions that occur with it. */
  lemma {:induction false} NestPositions(rows: seq<DepthRow>)
    ensures forall k :: k in Nest(rows).m ==> Nest(rows).m[k].Keys == PositionsOf(rows, k)
  {
    if rows != [] {
      var n := |rows| - 1;
      var pre := rows[..n];
      NestPositions(pre);
      assert rows == pre + [rows[n]];
      NestSnoc(pre, rows[n]);
      forall k | k in Nest(rows).m ensures Nest(rows).m[k].Keys == PositionsOf(rows, k) {
        PositionsSnoc(rows, k);
        if k == rows[n].reference && k !in Nest(pre).m {
          NestKeys(pre);
          assert forall i :: 0 <= i < n ==> pre[i].reference != k;
          assert PositionsOf(pre, k) == {};
        }
      }
    }
  }

  /** At a position, the depth of the last row for it. */
  lemma {:induction false} NestLast(rows: seq<DepthRow>, i: nat)
    requires i < |rows|
    requires forall j :: i < j < |rows| ==> (rows[j].reference, rows[j].position) != (rows[i].reference, rows[i].position)
    ensures rows[i].reference in Nest(rows).m && rows[i].position in Nest(rows).m[rows[i].reference]
    ensures Nest(rows).m[rows[i].reference][rows[i].position] == rows[i].depth
  {
    var n := |rows| - 1;
    var pre := rows[..n];
    assert rows == pre + [rows[n]];
    NestSnoc(pre, rows[n]);
    if i < n {
      NestLast(pre, i);
    }
  }

  /** `plasmid_length[ref]` checked before the division: KeyError when
      missing, ZeroDivisionError when zero. */
  function LengthProblem(plasmidLength: map<string, real>, ref: string): Option<Error> {
    if ref !in plasmidLength then Some(KeyError)
    else if plasmidLength[ref] == 0.0 then Some(ZeroDivisionError)
    else None
  }

  /** The second loop over the first `n` references of the table. */
  function Covered(d: ODict<string, map<string, real>>, n: nat, plasmidLength: map<string, real>, cutoff: real): Result<ODict<string, real>>
    requires d.Valid() && n <= |d.keys|
  {
    if n == 0 then Ok(Empty())
    else
      var before :- Covered(d, n - 1, plasmidLength, cutoff);
      var ref := d.keys[n - 1];
      match LengthProblem(plasmidLength, ref)
      case Some(e) => Err(e)
      case None =>
        var perc := |d.m[ref]| as real / plasmidLength[ref];
        Ok(if perc >= cutoff then before.Put(ref, perc) else before)
  }

  /** `depthfilereader(depth_file, plasmid_length, cutoff)` */
  function BasesCovered(lines: seq<string>, plasmidLength: map<string, real>, cutoff: real): Result<ODict<string, real>> {
    var rows :- MapResult(lines, DepthLine);
    var d := Nest(rows);
    Covered(d, |d.keys|, plasmidLength, cutoff)
  }

  /** The share of reference `ref`'s bases that some row covers. */
  function Share(d: ODict<string, map<string, real>>, plasmidLength: map<string, real>, ref: string): real
    requires ref in d.m && ref in plasmidLength && plasmidLength[ref] != 0.0
  {
    |d.m[ref]| as real / plasmidLength[ref]
  }

  /** The loop succeeds iff every reference has a non-zero length, else it
      raises the first reference's problem. */
  lemma {:induction false} CoveredErrors(d: ODict<string, map<string, real>>, n: nat, plasmidLength: map<string, real>, cutoff: real)
    requires d.Valid() && n <= |d.keys|
    ensures Covered(d, n, plasmidLength, cutoff).Ok? <==> forall i :: 0 <= i < n ==> LengthProblem(plasmidLength, d.keys[i]).None?
    ensures Covered(d, n, plasmidLength, cutoff).Err? ==> exists i ::
      && 0 <= i < n && LengthProblem(plasmidLength, d.keys[i]) == Some(Covered(d, n, plasmidLength, cutoff).error)
      && forall j :: 0 <= j < i ==> LengthProblem(plasmidLength, d.keys[j]).None?
  {
    if n > 0 {
      CoveredErrors(d, n - 1, plasmidLength, cutoff);
    }
  }

  /** When it succeeds, the loop keeps only references of the table. */
  lemma {:induction false} CoveredKeys(d: ODict<string, map<string, real>>, n: nat, plasmidLength: map<string, real>, cutoff: real)
    requires d.Valid() && n <= |d.keys|
    requires Covered(d, n, plasmidLength, cutoff).Ok?
    ensures var r := Covered(d, n, plasmidLength, cutoff).value;
      && r.Valid()
      && forall k :: k in r.m ==> exists i :: 0 <= i < n && d.keys[i] == k
  {
    if n > 0 {
      CoveredKeys(d, n - 1, plasmidLength, cutoff);
    }
  }

  /** When it succeeds, the loop keeps exactly the references whose share
      reaches the cutoff, with that share. */
  lemma {:induction false} CoveredSpec(d: ODict<string, map<string, real>>, n: nat, plasmidLength: map<string, real>, cutoff: real)
    requires d.Valid() && n <= |d.keys|
    requires Covered(d, n, plasmidLength, cutoff).Ok?
    ensures var r := Covered(d, n, plasmidLength, cutoff).value;
      forall i :: 0 <= i < n ==>
        && LengthProblem(plasmidLength, d.keys[i]).None?
        && (d.keys[i] in r.m <==> Share(d, plasmidLength, d.keys[i]) >= cutoff)
        && (d.keys[i] in r.m ==> r.m[d.keys[i]] == Share(d, plasmidLength, d.keys[i]))
  {
    if n > 0 {
      CoveredSpec(d, n - 1, plasmidLength, cutoff);
      CoveredKeys(d, n - 1, plasmidLength, cutoff);
      var ref := d.keys[n - 1];
      var before := Covered(d, n - 1, plasmidLength, cutoff).value;
      var r := Covered(d, n, plasmidLength, cutoff).value;
      assert LengthProblem(plasmidLength, ref).None?;
      var perc := Share(d, plasmidLength, ref);
      assert r == if perc >= cutoff then before.Put(ref, perc) else before;
      assert ref !in before.m;
      forall i | 0 <= i < n
        ensures && LengthProblem(plasmidLength, d.keys[i]).None?
                && (d.keys[i] in r.m <==> Share(d, plasmidLength, d.keys[i]) >= cutoff)
                && (d.keys[i] in r.m ==> r.m[d.keys[i]] == Share(d, plasmidLength, d.keys[i]))
      {
        if i < n - 1 {
          assert d.keys[i] != ref;
        }
      }
    }
  }

  /** The table's keys are the references of the rows. */
  ghost predicate KeysOf(d: ODict<string, map<string, real>>, rows: seq<DepthRow>) {
    forall k :: k in d.m <==> exists i :: 0 <= i < |rows| && rows[i].reference == k
  }

  /** Over rows whose references are the table's keys: the second loop
      raises iff some reference lacks a non-zero length. */
  lemma CoveredRowsOk(d: ODict<string, map<string, real>>, rows: seq<DepthRow>, plasmidLength: map<string, real>, cutoff: real)
    requires d.Valid() && KeysOf(d, rows)
    ensures Covered(d, |d.keys|, plasmidLength, cutoff).Ok? <==>
      forall i :: 0 <= i < |rows| ==> LengthProblem(plasmidLength, rows[i].reference).None?
  {
    CoveredErrors(d, |d.keys|, plasmidLength, cutoff);
    if Covered(d, |d.keys|, plasmidLength, cutoff).Ok? {
      forall i | 0 <= i < |rows| ensures LengthProblem(plasmidLength, rows[i].reference).None? {
        assert rows[i].reference in d.m;
        var j :| 0 <= j < |d.keys| && d.keys[j] == rows[i].reference;
      }
    }
    if forall i :: 0 <= i < |rows| ==> LengthProblem(plasmidLength, rows[i].reference).None? {
      forall j | 0 <= j < |d.keys| ensures LengthProblem(plasmidLength, d.keys[j]).None? {
        assert d.keys[j] in d.m;
      }
    }
  }

  /** ... and keeps only references that occur. */
  lemma CoveredRowsKept(d: ODict<string, map<string, real>>, rows: seq<DepthRow>, plasmidLength: map<string, real>, cutoff: real)
    requires d.Valid() && KeysOf(d, rows)
    requires Covered(d, |d.keys|, plasmidLength, cutoff).Ok?
    ensures forall k :: k in Covered(d, |d.keys|, plasmidLength, cutoff).value.m ==> exists i :: 0 <= i < |rows| && rows[i].reference == k
  {
    CoveredKeys(d, |d.keys|, plasmidLength, cutoff);
    var r := Covered(d, |d.keys|, plasmidLength, cutoff).value;
    forall k | k in r.m ensures exists i :: 0 <= i < |rows| && rows[i].reference == k {
      var j :| 0 <= j < |d.keys| && d.keys[j] == k;
      assert d.keys[j] in d.m;
    }
  }

  /** Over rows whose references are the table's keys and whose positions
      are each key's positions: a reference is kept iff its distinct
      positions over its length reach the cutoff, with that share. */
  lemma CoveredRowsValues(d: ODict<string, map<string, real>>, rows: seq<DepthRow>, plasmidLength: map<string, real>, cutoff: real)
    requires d.Valid() && KeysOf(d, rows)
    requires forall k :: k in d.m ==> d.m[k].Keys == PositionsOf(rows, k)
    requires Covered(d, |d.keys|, plasmidLength, cutoff).Ok?
    ensures var r := Covered(d, |d.keys|, plasmidLength, cutoff).value;
      forall i :: 0 <= i < |rows| ==>
        && LengthProblem(plasmidLength, rows[i].reference).None?
        && (rows[i].reference in r.m <==> |PositionsOf(rows, rows[i].reference)| as real / plasmidLength[rows[i].reference] >= cutoff)
        && (rows[i].reference in r.m ==> r.m[rows[i].reference] == |PositionsOf(rows, rows[i].reference)| as real / plasmidLength[rows[i].reference])
  {
    CoveredRowsOk(d, rows, plasmidLength, cutoff);
    CoveredSpec(d, |d.keys|, plasmidLength, cutoff);
    var r := Covered(d, |d.keys|, plasmidLength, cutoff).value;
    forall i | 0 <= i < |rows|
      ensures && LengthProblem(plasmidLength, rows[i].reference).None?
              && (rows[i].reference in r.m <==> |PositionsOf(rows, rows[i].reference)| as real / plasmidLength[rows[i].reference] >= cutoff)
              && (rows[i].reference in r.m ==> r.m[rows[i].reference] == |PositionsOf(rows, rows[i].reference)| as real / plasmidLength[rows[i].reference])
    {
      var ref := rows[i].reference;
      assert ref in d.m;
      var j :| 0 <= j < |d.keys| && d.keys[j] == ref;
      assert |d.m[ref]| == |d.m[ref].Keys|;
      assert Share(d, plasmidLength, ref) == |PositionsOf(rows, ref)| as real / plasmidLength[ref];
    }
  }

  /** What `depthfilereader` returns: it raises the first unparsable
      line's error; otherwise it raises iff a reference has no length (or
      a zero one); otherwise a reference is kept iff it occurs and its
      distinct positions divided by its length reach the cutoff, with that
      share as its value, and nothing else is kept. */
  lemma BasesCoveredSpec(lines: seq<string>, plasmidLength: map<string, real>, cutoff: real)
    ensures MapResult(lines, DepthLine).Err? ==> BasesCovered(lines, plasmidLength, cutoff) == Err(MapResult(lines, DepthLine).error)
    ensures MapResult(lines, DepthLine).Ok? ==> var rows := MapResult(lines, DepthLine).value;
      (BasesCovered(lines, plasmidLength, cutoff).Ok? <==> forall i :: 0 <= i < |rows| ==> LengthProblem(plasmidLength, rows[i].reference).None?)
    ensures BasesCovered(lines, plasmidLength, cutoff).Ok? ==>
      var rows := MapResult(lines, DepthLine).value; var r := BasesCovered(lines, plasmidLength, cutoff).value;
      && (forall k :: k in r.m ==> exists i :: 0 <= i < |rows| && rows[i].reference == k)
      && forall i :: 0 <= i < |rows| ==>
        && LengthProblem(plasmidLength, rows[i].reference).None?
        && (rows[i].reference in r.m <==> |PositionsOf(rows, rows[i].reference)| as real / plasmidLength[rows[i].reference] >= cutoff)
        && (rows[i].reference in r.m ==> r.m[rows[i].reference] == |PositionsOf(rows, rows[i].reference)| as real / plasmidLength[rows[i].reference])
  {
    if MapResult(lines, DepthLine).Ok? {
      var rows := MapResult(lines, DepthLine).value;
      var d := Nest(rows);
      NestKeys(rows);
      NestPositions(rows);
      CoveredRowsOk(d, rows, plasmidLength, cutoff);
      if Covered(d, |d.keys|, plasmidLength, cutoff).Ok? {
        CoveredRowsKept(d, rows, plasmidLength, cutoff);
        CoveredRowsValues(d, rows, plasmidLength, cutoff);
      }
    }
  }

  /** Rows with the same references and positions in the same order give
      the same table shape. */
  lemma {:induction false} NestShape(a: seq<DepthRow>, b: seq<DepthRow>)
    requires |a| == |b|
    requires forall i :: 0 <= i < |a| ==> a[i].reference == b[i].reference && a[i].position == b[i].position
    ensures Nest(a).keys == Nest(b).keys
    ensures forall k :: k in Nest(a).m ==> k in Nest(b).m && Nest(a).m[k].Keys == Nest(b).m[k].Keys
  {
    if a != [] {
      var n := |a| - 1;
      NestShape(a[..n], b[..n]);
    }
  }

  /** The second loop only counts positions. */
  lemma {:induction false} CoveredShape(d: ODict<string, map<string, real>>, e: ODict<string, map<string, real>>, n: nat, plasmidLength: map<string, real>, cutoff: real)
    requires d.Valid() && e.Valid() && d.keys == e.keys && n <= |d.keys|
    requires forall k :: k in d.m ==> k in e.m && d.m[k].Keys == e.m[k].Keys
    ensures Covered(d, n, plasmidLength, cutoff) == Covered(e, n, plasmidLength, cutoff)
  {
    if n > 0 {
      CoveredShape(d, e, n - 1, plasmidLength, cutoff);
      var ref := d.keys[n - 1];
      assert |d.m[ref]| == |d.m[ref].Keys| == |e.m[ref].Keys| == |e.m[ref]|;
    }
  }

  /** The depths never matter: lines that parse to the same references
      and positions give the same result whatever their depth values. */
  lemma DepthValuesIrrelevant(a: seq<string>, b: seq<string>, plasmidLength: map<string, real>, cutoff: real)
    requires |a| == |b|
    requires forall i :: 0 <= i < |a| ==> DepthLine(a[i]).Ok? && DepthLine(b[i]).Ok?
    requires forall i :: 0 <= i < |a| ==>
      DepthLine(a[i]).value.reference == DepthLine(b[i]).value.reference && DepthLine(a[i]).value.position == DepthLine(b[i]).value.position
    ensures BasesCovered(a, plasmidLength, cutoff) == BasesCovered(b, plasmidLength, cutoff)
  {
    var ra := MapResult(a, DepthLine).value;
    var rb := MapResult(b, DepthLine).value;
    NestShape(ra, rb);
    CoveredShape(Nest(ra), Nest(rb), |Nest(ra).keys|, plasmidLength, cutoff);
  }

  // ----------------------------------------------------------------- loops

  /** The first loop, with `row` reading each line. */
  method ReadDepth(lines: seq<string>, row: string -> Result<DepthRow>) returns (r: Result<ODict<string, map<string, real>>>)
    ensures MapResult(lines, row).Err? ==> r == Err(MapResult(lines, row).error)
    ensures MapResult(lines, row).Ok? ==> r == Ok(Nest(MapResult(lines, row).value))
  {
    var depthDicCoverage := Empty<string, map<string, real>>();
    ghost var rows: seq<DepthRow> := [];
    var i := 0;
    while i < |lines|
      invariant 0 <= i <= |lines|
      invariant MapResult(lines[..i], row) == Ok(rows) && depthDicCoverage == Nest(rows)
    {
      MapResultStep(lines, i, row);
      var e := row(lines[i]);
      if e.Err? {
        return Err(e.error);
      }
      var reference := e.value.reference;
      ghost var before := depthDicCoverage;
      ghost var inner := if reference in before.m then before.m[reference] else map[];
      if reference !in depthDicCoverage.m {
        depthDicCoverage := depthDicCoverage.Put(reference, map[]);
      }
      assert depthDicCoverage.m[reference] == inner;
      depthDicCoverage := depthDicCoverage.Put(reference, depthDicCoverage.m[reference][e.value.position := e.value.depth]);
      if reference !in before.m {
        PutPut(before, reference, map[], inner[e.value.position := e.value.depth]);
      }
      NestSnoc(rows, e.value);
      rows := rows + [e.value];
      i := i + 1;
    }
    assert lines[..i] == lines;
    r := Ok(depthDicCoverage);
  }

  lemma {:induction false} CoveredStops(d: ODict<string, map<string, real>>, n: nat, plasmidLength: map<string, real>, cutoff: real)
    requires d.Valid() && 0 < n <= |d.keys| && Covered(d, n, plasmidLength, cutoff).Err?
    ensures Covered(d, |d.keys|, plasmidLength, cutoff) == Covered(d, n, plasmidLength, cutoff)
    decreases |d.keys| - n
  {
    if n < |d.keys| {
      CoveredStops(d, n + 1, plasmidLength, cutoff);
    }
  }

  /** The second loop of `depthfilereader`. */
  method PercentageLoop(depthDicCoverage: ODict<string, map<string, real>>, plasmidLength: map<string, real>, cutoff: real) returns (r: Result<ODict<string, real>>)
    requires depthDicCoverage.Valid()
    ensures r == Covered(depthDicCoverage, |depthDicCoverage.keys|, plasmidLength, cutoff)
  {
    var percentageBasescovered := Empty<string, real>();
    var i := 0;
    while i < |depthDicCoverage.keys|
      invariant 0 <= i <= |depthDicCoverage.keys|
      invariant Covered(depthDicCoverage, i, plasmidLength, cutoff) == Ok(percentageBasescovered)
    {
      var ref := depthDicCoverage.keys[i];
      if ref !in plasmidLength {
        CoveredStops(depthDicCoverage, i + 1, plasmidLength, cutoff);
        return Err(KeyError);
      }
      if plasmidLength[ref] == 0.0 {
        CoveredStops(depthDicCoverage, i + 1, plasmidLength, cutoff);
        return Err(ZeroDivisionError);
      }
      var percValuePerRef := |depthDicCoverage.m[ref]| as real / plasmidLength[ref];
      if percValuePerRef >= cutoff {
        percentageBasescovered := percentageBasescovered.Put(ref, percValuePerRef);
      }
      i := i + 1;
    }
    r := Ok(percentageBasescovered);
  }

  /** `depthfilereader` */
  method DepthFileReader(lines: seq<string>, plasmidLength: map<string, real>, cutoff: real) returns (r: Result<ODict<string, real>>)
    ensures r == BasesCovered(lines, plasmidLength, cutoff)
  {
    var read := ReadDepth(lines, DepthLine);
    if read.Err? {
      return Err(read.error);
    }
    r := PercentageLoop(read.value, plasmidLength, cutoff);
  }
}
