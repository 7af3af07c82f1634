/** mashdist2json.py: `mash dist` output lines turned into a dictionary from
    reference accession to similarity (one minus the distance). */
module MashDist2Json {
  import opened Wrappers
  import opened Strings
  import opened Numbers
  import opened OrderedDicts

  /** The output file name: the input path split on '.', the last piece
      dropped and the rest joined with spaces, then ".json". */
  function JsonName(path: string): (r: string)
    ensures |r| >= 5 && r[|r| - 5..] == ".json"
  {
    var pieces := SplitOn(path, '.');
    Join(pieces[..|pieces| - 1], " ") + ".json"
  }

  /** For a path made of dot-free pieces, the extension is dropped and the
      remaining dots become spaces. */
  lemma {:induction false} JsonNameOfPieces(pieces: seq<string>)
    requires |pieces| > 0
    requires forall i :: 0 <= i < |pieces| ==> '.' !in pieces[i]
    ensures JsonName(Join(pieces, ".")) == Join(pieces[..|pieces| - 1], " ") + ".json"
  {
    SplitOnJoin(pieces, '.');
  }

  /** A path without any '.' becomes just ".json". */
  lemma {:induction false} JsonNameNoDot(path: string)
    requires '.' !in path
    ensures JsonName(path) == ".json"
  {
    SplitOnNoSep(path, '.');
  }

  /** One line: the accession is the first three '_' fields of the stripped
      column 0, the value is one minus the float of the stripped column 2. */
  function DistEntry(line: string): Result<(string, real)> {
    ColumnsEntry(SplitOn(line, '\t'))
  }

  function ColumnsEntry(cols: seq<string>): Result<(string, real)> {
    if |cols| < 3 then Err(IndexError)
    else match ParseReal(Strip(cols[2]))
      case None => Err(ValueError)
      case Some(dist) => Ok((FirstFields(Strip(cols[0]), '_', 3), 1.0 - dist))
  }

  /** A tab-joined line of tab-free columns yields its accession and
      similarity; a float column that does not parse gives ValueError. */
  lemma {:induction false} DistEntryOfColumns(cols: seq<string>)
    requires |cols| >= 3
    requires forall i :: 0 <= i < |cols| ==> '\t' !in cols[i]
    ensures DistEntry(Join(cols, "\t")) == ColumnsEntry(cols)
  {
    SplitOnJoin(cols, '\t');
  }

  /** `master_dict` after the loop, or the exception it stops with. */
  function MasterDict(lines: seq<string>): (r: Result<ODict<string, real>>)
    ensures r.Ok? ==> r.value.Valid()
  {
    CollectPairs(lines, DistEntry)
  }

  /** The loop of `main` filling `master_dict`. */
  method BuildMasterDict(lines: seq<string>) returns (r: Result<ODict<string, real>>)
    ensures r == MasterDict(lines)
  {
    var d := Empty<string, real>();
    var i := 0;
    while i < |lines|
      invariant 0 <= i <= |lines|
      invariant MasterDict(lines[..i]) == Ok(d)
    {
      var e := DistEntry(lines[i]);
      CollectPairsStep(lines, i, DistEntry);
      if e.Err? {
        return Err(e.error);
      }
      d := d.Put(e.value.0, e.value.1);
      i := i + 1;
    }
    assert lines[..i] == lines;
    r := Ok(d);
  }

  /** The loop succeeds iff every line has three columns and a float in the
      third; otherwise it raises what the first failing line raises. Then there is one entry per distinct accession, listed in the
      order of its first line, holding the value of its last line. */
  lemma {:induction false} MasterDictEntries(lines: seq<string>)
    ensures MasterDict(lines).Ok? <==> forall i :: 0 <= i < |lines| ==> DistEntry(lines[i]).Ok?
    ensures MasterDict(lines).Err? ==> exists i ::
      && 0 <= i < |lines| && DistEntry(lines[i]) == Err(MasterDict(lines).error)
      && forall j :: 0 <= j < i ==> DistEntry(lines[j]).Ok?
    ensures MasterDict(lines).Ok? ==>
      var es := MapResult(lines, DistEntry).value; var d := MasterDict(lines).value;
      && (forall i :: 0 <= i < |lines| ==> es[i] == DistEntry(lines[i]).value)
      && d.m.Keys == (set j | 0 <= j < |es| :: es[j].0)
      && (forall i :: 0 <= i < |es| && (forall j :: i < j < |es| ==> es[j].0 != es[i].0) ==> d.m[es[i].0] == es[i].1)
      && (forall p, q :: 0 <= p < q < |d.keys| ==> FirstIndex(es, d.keys[p]) < FirstIndex(es, d.keys[q]))
  {
    CollectPairsContents(lines, DistEntry);
  }
}
