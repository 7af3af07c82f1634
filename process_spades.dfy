/** The SPAdes post-processing step (process_spades.py): reads the contigs
    of a SPAdes FASTA assembly together with the k-mer coverage written at
    the end of each header, counts their GC content, filters them by rules
    and checks the kept assembly size against the expected genome size.

    `self.contigs` and `self.report` are dictionaries keyed by the contig
    ids 0, 1, 2, ... in insertion order; they are modelled as sequences
    indexed by that id. */
module ProcessSpades {
  import opened Wrappers
  import opened Strings
  import opened Numbers

  // ---------------------------------------------------------------------
  // Contigs and their GC content

  /** The dictionary `_get_gc_content` returns: the three counts, and the
      three proportions of the length they were computed for. */
  datatype GcContent = GcContent(at: int, gc: int, n: int, length: int) {
    function AtProp(): real { Share(at, length) }
    function GcProp(): real { Share(gc, length) }
    function NProp(): real { Share(n, length) }
  }

  /** One value of `self.contigs`: its "header", "sequence" and "kmer_cov"
      entries together with the GC dictionary; "length" is the sequence's
      length. */
  datatype Contig = Contig(header: Option<string>, sequence: string, kmerCov: Option<real>, content: GcContent)

  /** `count / length` in floating point; the proportions are only taken
      of a non-zero length. */
  function Share(count: int, length: int): real {
    if length == 0 then 0.0 else count as real / length as real
  }

  /** `_get_gc_content(sequence, length)`: uppercase A+T and G+C counts,
      the rest as `n`, and the three proportions of `length`. */
  function GetGcContent(sequence: string, length: int): (r: Result<GcContent>)
    ensures r.Err? <==> length == 0
    ensures r.Err? ==> r.error == ZeroDivisionError
  {
    var at := Count(sequence, 'A') + Count(sequence, 'T');
    var gc := Count(sequence, 'G') + Count(sequence, 'C');
    var n := length - (at + gc);
    if length == 0 then Err(ZeroDivisionError)
    else Ok(GcContent(at, gc, n, length))
  }

  /** For a non-empty sequence the three counts add up to its length, none
      is negative, and the three proportions add up to one. */
  lemma GcContentSums(sequence: string)
    requires sequence != []
    ensures GetGcContent(sequence, |sequence|).Ok?
    ensures var g := GetGcContent(sequence, |sequence|).value;
      && g.at == Count(sequence, 'A') + Count(sequence, 'T')
      && g.gc == Count(sequence, 'G') + Count(sequence, 'C')
      && g.at + g.gc + g.n == |sequence|
      && 0 <= g.at && 0 <= g.gc && 0 <= g.n
      && g.AtProp() + g.GcProp() + g.NProp() == 1.0
      && 0.0 <= g.GcProp() <= 1.0
  {
    GcContentOfLength(sequence, |sequence|);
  }

  lemma GcContentOfLength(sequence: string, len: int)
    requires sequence != [] && len == |sequence|
    ensures GetGcContent(sequence, len).Ok?
    ensures var g := GetGcContent(sequence, len).value;
      && g.at == Count(sequence, 'A') + Count(sequence, 'T')
      && g.gc == Count(sequence, 'G') + Count(sequence, 'C')
      && g.at + g.gc + g.n == len
      && 0 <= g.at && 0 <= g.gc && 0 <= g.n
      && g.AtProp() + g.GcProp() + g.NProp() == 1.0
      && 0.0 <= g.GcProp() <= 1.0
  {
    var at := Count(sequence, 'A') + Count(sequence, 'T');
    var gc := Count(sequence, 'G') + Count(sequence, 'C');
    CountFour(sequence, 'A', 'T', 'G', 'C');
    SharesSum(at, gc, len - (at + gc), len);
    UnitShare(gc, len);
  }

  lemma SharesSum(at: int, gc: int, n: int, len: int)
    requires len > 0 && at + gc + n == len
    ensures Share(at, len) + Share(gc, len) + Share(n, len) == 1.0
  {
    var l := len as real;
    assert at as real + gc as real + n as real == l;
    assert at as real / l + gc as real / l + n as real / l == (at as real + gc as real + n as real) / l;
  }

  lemma UnitShare(a: int, b: int)
    requires 0 <= a <= b && b > 0
    ensures 0.0 <= Share(a, b) <= 1.0
  {
    assert a as real / b as real * b as real == a as real;
  }

  /** `_populate_contigs` with the dictionary it stores for one contig. */
  function PopulateContig(header: Option<string>, cov: Option<real>, sequence: string): Result<Contig> {
    match GetGcContent(sequence, |sequence|)
    case Err(e) => Err(e)
    case Ok(g) => Ok(Contig(header, sequence, cov, g))
  }

  /** A stored contig is never empty and carries the GC content of its own
      sequence. */
  predicate WellFormed(c: Contig) {
    c.sequence != [] && GetGcContent(c.sequence, |c.sequence|) == Ok(c.content)
  }

  lemma PopulateContigWellFormed(header: Option<string>, cov: Option<real>, sequence: string)
    ensures PopulateContig(header, cov, sequence).Ok? <==> sequence != []
    ensures PopulateContig(header, cov, sequence).Ok? ==>
      var c := PopulateContig(header, cov, sequence).value;
      WellFormed(c) && c.header == header && c.kmerCov == cov && c.sequence == sequence
  {
  }

  // ---------------------------------------------------------------------
  // Parsing

  /** The loop variables of `_parse_assembly`: the contigs stored so far
      (whose count is `contig_id`), `seq_temp`, `header` and `cov`. */
  datatype ParseState = ParseState(contigs: seq<Contig>, seqTemp: seq<string>, header: Option<string>, cov: Option<real>)

  const InitialParse := ParseState([], [], None, None)

  /** `float(line.split("_")[-1])` on a stripped header line. */
  function CovOf(line: string): Option<real> {
    var pieces := SplitOn(line, '_');
    ParseReal(pieces[|pieces| - 1])
  }

  predicate IsHeaderLine(line: string) {
    StartsWith(Strip(line), ">")
  }

  /** The `if seq_temp:` block: the pending contig is stored and the
      buffer emptied. */
  function StorePending(st: ParseState): Result<ParseState> {
    if st.seqTemp == [] then Ok(st)
    else match PopulateContig(st.header, st.cov, Concat(st.seqTemp))
      case Err(e) => Err(e)
      case Ok(c) => Ok(st.(contigs := st.contigs + [c], seqTemp := []))
  }

  /** The new header without its '>' and its coverage. */
  function TakeHeader(st: ParseState, l: string): Result<ParseState>
    requires l != []
  {
    match CovOf(l)
    case None => Err(ValueError)
    case Some(v) => Ok(st.(header := Some(l[1..]), cov := Some(v)))
  }

  /** One line of the loop: blank lines are skipped; a header line first
      stores the pending contig if it has sequence lines, then takes the
      new header and coverage; any other line is a sequence fragment. */
  function ParseStep(st: ParseState, line: string): Result<ParseState> {
    var l := Strip(line);
    if l == [] then Ok(st)
    else if StartsWith(l, ">") then
      match StorePending(st)
      case Err(e) => Err(e)
      case Ok(s) => TakeHeader(s, l)
    else Ok(st.(seqTemp := st.seqTemp + [l]))
  }

  lemma TakeHeaderOk(st: ParseState, l: string)
    requires l != [] && CovOf(l).Some?
    ensures TakeHeader(st, l) == Ok(ParseState(st.contigs, st.seqTemp, Some(l[1..]), CovOf(l)))
  {
  }

  lemma StepBlank(st: ParseState, line: string)
    requires Strip(line) == []
    ensures ParseStep(st, line) == Ok(st)
  {
  }

  lemma StepSequence(st: ParseState, line: string, l: string)
    requires l == Strip(line) && l != [] && !StartsWith(l, ">")
    ensures ParseStep(st, line) == Ok(st.(seqTemp := st.seqTemp + [l]))
  {
  }

  lemma StepHeader(st: ParseState, line: string, l: string)
    requires l == Strip(line) && l != [] && StartsWith(l, ">")
    ensures ParseStep(st, line) == match StorePending(st) case Err(e) => Err(e) case Ok(s) => TakeHeader(s, l)
  {
  }

  /** The loop of `_parse_assembly` from state `st` over `lines`; a line
      that raises ends it. */
  function ParseFrom(st: ParseState, lines: seq<string>): Result<ParseState>
    decreases |lines|
  {
    if lines == [] then Ok(st)
    else match ParseFrom(st, lines[..|lines| - 1])
      case Err(e) => Err(e)
      case Ok(s) => ParseStep(s, lines[|lines| - 1])
  }

  lemma ParseFromSnoc(st: ParseState, lines: seq<string>)
    requires lines != []
    ensures ParseFrom(st, lines) ==
      match ParseFrom(st, lines[..|lines| - 1])
      case Err(e) => Err(e)
      case Ok(s) => ParseStep(s, lines[|lines| - 1])
  {
  }

  /** Once a line has raised, the later lines are never reached. */
  lemma {:induction false} ParseFromStops(st: ParseState, lines: seq<string>, n: nat)
    requires n <= |lines| && ParseFrom(st, lines[..n]).Err?
    ensures ParseFrom(st, lines) == ParseFrom(st, lines[..n])
    decreases |lines|
  {
    if n < |lines| {
      var m := |lines| - 1;
      assert lines[..m][..n] == lines[..n];
      ParseFromStops(st, lines[..m], n);
    } else {
      assert lines[..n] == lines;
    }
  }

  /** One more pass of the loop. */
  lemma ParseFromStep(st: ParseState, lines: seq<string>, n: nat)
    requires n < |lines| && ParseFrom(st, lines[..n]).Ok?
    ensures ParseFrom(st, lines[..n + 1]) == ParseStep(ParseFrom(st, lines[..n]).value, lines[n])
    ensures ParseStep(ParseFrom(st, lines[..n]).value, lines[n]).Err? ==>
      ParseFrom(st, lines) == ParseStep(ParseFrom(st, lines[..n]).value, lines[n])
  {
    assert lines[..n + 1][..n] == lines[..n];
    if ParseStep(ParseFrom(st, lines[..n]).value, lines[n]).Err? {
      ParseFromStops(st, lines, n + 1);
    }
  }

  /** Parsing a concatenation parses the second part from where the first
      part stopped. */
  lemma {:induction false} ParseFromAppend(st: ParseState, xs: seq<string>, ys: seq<string>)
    ensures ParseFrom(st, xs + ys) ==
      match ParseFrom(st, xs)
      case Err(e) => Err(e)
      case Ok(s) => ParseFrom(s, ys)
    decreases |ys|
  {
    if ys == [] {
      assert xs + ys == xs;
    } else {
      var m := |ys| - 1;
      var zs := xs + ys;
      assert zs[..|zs| - 1] == xs + ys[..m];
      assert zs[|zs| - 1] == ys[m];
      ParseFromAppend(st, xs, ys[..m]);
      ParseFromSnoc(st, zs);
      if ParseFrom(st, xs).Ok? {
        ParseFromSnoc(ParseFrom(st, xs).value, ys);
      }
    }
  }

  /** A line that parses extends the fold by one line. */
  lemma ParseGoesOn(lines: seq<string>, i: nat, st: ParseState, next: ParseState)
    requires i < |lines| && ParseFrom(InitialParse, lines[..i]) == Ok(st)
    requires ParseStep(st, lines[i]) == Ok(next)
    ensures ParseFrom(InitialParse, lines[..i + 1]) == Ok(next)
  {
    ParseFromStep(InitialParse, lines, i);
  }

  /** A line that raises ends the parse with its error. */
  lemma ParseStopsAt(lines: seq<string>, i: nat, st: ParseState)
    requires i < |lines| && ParseFrom(InitialParse, lines[..i]) == Ok(st)
    requires ParseStep(st, lines[i]).Err?
    ensures ParseContigs(lines) == Err(ParseStep(st, lines[i]).error)
  {
    ParseFromStep(InitialParse, lines, i);
  }

  /** `_parse_assembly` over the file's lines: the loop, then the last
      contig is always populated, even with no sequence. */
  function ParseContigs(lines: seq<string>): (r: Result<seq<Contig>>)
    ensures r.Ok? ==> r.value != []
  {
    match ParseFrom(InitialParse, lines)
    case Err(e) => Err(e)
    case Ok(st) =>
      match PopulateContig(st.header, st.cov, Concat(st.seqTemp))
      case Err(e) => Err(e)
      case Ok(c) => Ok(st.contigs + [c])
  }

  predicate AllWellFormed(st: ParseState) {
    forall k :: 0 <= k < |st.contigs| ==> WellFormed(st.contigs[k])
  }

  lemma ParseStepWellFormed(st: ParseState, line: string)
    requires AllWellFormed(st) && ParseStep(st, line).Ok?
    ensures AllWellFormed(ParseStep(st, line).value)
  {
    var l := Strip(line);
    if l != [] && StartsWith(l, ">") && st.seqTemp != [] {
      PopulateContigWellFormed(st.header, st.cov, Concat(st.seqTemp));
    }
  }

  lemma {:induction false} ParseFromWellFormed(st: ParseState, lines: seq<string>)
    requires AllWellFormed(st)
    ensures ParseFrom(st, lines).Ok? ==> AllWellFormed(ParseFrom(st, lines).value)
    decreases |lines|
  {
    if lines != [] {
      var prefix := ParseFrom(st, lines[..|lines| - 1]);
      ParseFromWellFormed(st, lines[..|lines| - 1]);
      if prefix.Ok? {
        var last := lines[|lines| - 1];
        assert ParseFrom(st, lines) == ParseStep(prefix.value, last);
        if ParseStep(prefix.value, last).Ok? {
          ParseStepWellFormed(prefix.value, last);
        }
      }
    }
  }

  /** Every parsed contig has a non-empty sequence and the GC content of
      that sequence. */
  lemma ParseContigsWellFormed(lines: seq<string>)
    ensures ParseContigs(lines).Ok? ==>
      forall k :: 0 <= k < |ParseContigs(lines).value| ==> WellFormed(ParseContigs(lines).value[k])
  {
    ParseFromWellFormed(InitialParse, lines);
    var f := ParseFrom(InitialParse, lines);
    if f.Ok? {
      PopulateContigWellFormed(f.value.header, f.value.cov, Concat(f.value.seqTemp));
    }
  }

  /** An empty file has no sequence for its one contig. */
  lemma ParseContigsEmpty()
    ensures ParseContigs([]) == Err(ZeroDivisionError)
  {
    assert ParseFrom(InitialParse, []) == Ok(InitialParse);
    assert Concat([]) == [];
  }

  /** Blank lines have no effect anywhere in the file. */
  lemma BlankLineIgnored(pre: seq<string>, blank: string, post: seq<string>)
    requires Strip(blank) == []
    ensures ParseContigs(pre + [blank] + post) == ParseContigs(pre + post)
  {
    ParseFromAppend(InitialParse, pre + [blank], post);
    ParseFromAppend(InitialParse, pre, [blank]);
    ParseFromAppend(InitialParse, pre, post);
    var f := ParseFrom(InitialParse, pre);
    if f.Ok? {
      FoldOne(f.value, blank);
    }
  }

  lemma FoldOne(st: ParseState, line: string)
    ensures ParseFrom(st, [line]) == ParseStep(st, line)
  {
    assert [line][..0] == [];
  }

  /** Two header lines in a row: the first one's contig is never stored; the
      file parses as if it were not there (when its coverage is a number). */
  lemma HeaderWithoutSequenceDropped(pre: seq<string>, h1: string, h2: string, post: seq<string>)
    requires IsHeaderLine(h1) && IsHeaderLine(h2) && CovOf(Strip(h1)).Some?
    ensures ParseContigs(pre + [h1, h2] + post) == ParseContigs(pre + [h2] + post)
  {
    ParseFromAppend(InitialParse, pre + [h1, h2], post);
    ParseFromAppend(InitialParse, pre, [h1, h2]);
    ParseFromAppend(InitialParse, pre + [h2], post);
    ParseFromAppend(InitialParse, pre, [h2]);
    var f := ParseFrom(InitialParse, pre);
    if f.Ok? {
      FoldTwo(f.value, h1, h2);
      FoldOne(f.value, h2);
      HeaderHeader(f.value, h1, h2);
    }
  }

  lemma FoldTwo(st: ParseState, a: string, b: string)
    ensures ParseFrom(st, [a, b]) ==
      match ParseStep(st, a) case Err(e) => Err(e) case Ok(s) => ParseStep(s, b)
  {
    assert [a, b][..1] == [a];
    FoldOne(st, a);
  }

  lemma HeaderHeader(st: ParseState, h1: string, h2: string)
    requires IsHeaderLine(h1) && IsHeaderLine(h2) && CovOf(Strip(h1)).Some?
    ensures (match ParseStep(st, h1) case Err(e) => Err(e) case Ok(s) => ParseStep(s, h2)) == ParseStep(st, h2)
  {
    var l1, l2 := Strip(h1), Strip(h2);
    HeaderLineNotBlank(h1);
    HeaderLineNotBlank(h2);
    StepHeader(st, h1, l1);
    StepHeader(st, h2, l2);
    var pending := StorePending(st);
    if pending.Ok? {
      var s := pending.value;
      TakeHeaderOk(s, l1);
      var s1 := ParseState(s.contigs, s.seqTemp, Some(l1[1..]), CovOf(l1));
      assert ParseStep(st, h1) == Ok(s1);
      StepHeader(s1, h2, l2);
      assert StorePending(s1) == Ok(s1);
    }
  }

  lemma HeaderLineNotBlank(line: string)
    requires IsHeaderLine(line)
    ensures Strip(line) != []
  {
  }

  /** Sequence lines: stripped, non-blank, not starting with '>'. */
  predicate IsSequenceLine(line: string) {
    Strip(line) != [] && !StartsWith(Strip(line), ">")
  }

  function StrippedAll(lines: seq<string>): (r: seq<string>)
    ensures |r| == |lines|
    decreases |lines|
  {
    if lines == [] then [] else StrippedAll(lines[..|lines| - 1]) + [Strip(lines[|lines| - 1])]
  }

  /** Sequence lines only add their stripped text to `seq_temp`. */
  lemma {:induction false} SequenceLinesBuffered(st: ParseState, body: seq<string>)
    requires forall k :: 0 <= k < |body| ==> IsSequenceLine(body[k])
    ensures ParseFrom(st, body) == Ok(st.(seqTemp := st.seqTemp + StrippedAll(body)))
    decreases |body|
  {
    if body == [] {
      assert st.seqTemp + [] == st.seqTemp;
    } else {
      var n := |body| - 1;
      SequenceLinesBuffered(st, body[..n]);
      SequenceLineStep(st, body[..n], body[n]);
      assert body[..n] + [body[n]] == body;
    }
  }

  lemma SequenceLineStep(st: ParseState, pre: seq<string>, line: string)
    requires IsSequenceLine(line)
    requires ParseFrom(st, pre) == Ok(st.(seqTemp := st.seqTemp + StrippedAll(pre)))
    ensures ParseFrom(st, pre + [line]) == Ok(st.(seqTemp := st.seqTemp + StrippedAll(pre + [line])))
  {
    var mid := st.(seqTemp := st.seqTemp + StrippedAll(pre));
    StepSequence(mid, line, Strip(line));
    ParseFromLine(st, pre, line, mid);
    BufferSnoc(st.seqTemp, pre, line);
  }

  lemma ParseFromLine(st: ParseState, pre: seq<string>, line: string, mid: ParseState)
    requires ParseFrom(st, pre) == Ok(mid)
    ensures ParseFrom(st, pre + [line]) == ParseStep(mid, line)
  {
    var zs := pre + [line];
    assert zs[..|zs| - 1] == pre;
    assert zs[|zs| - 1] == line;
    ParseFromSnoc(st, zs);
  }

  lemma BufferSnoc(buffer: seq<string>, pre: seq<string>, line: string)
    ensures buffer + StrippedAll(pre) + [Strip(line)] == buffer + StrippedAll(pre + [line])
  {
    assert (pre + [line])[..|pre|] == pre;
    assert StrippedAll(pre + [line]) == StrippedAll(pre) + [Strip(line)];
  }

  /** After a header line with a numeric coverage, the state holds that
      header without its '>' and that coverage, and nothing is buffered. */
  lemma HeaderStarts(st: ParseState, h: string)
    requires IsHeaderLine(h) && CovOf(Strip(h)).Some? && ParseStep(st, h).Ok?
    ensures var s := ParseStep(st, h).value;
      && s.seqTemp == []
      && s.header == Some(Strip(h)[1..]) && s.cov == CovOf(Strip(h))
      && s.contigs == st.contigs + (if st.seqTemp == [] then [] else [PopulateContig(st.header, st.cov, Concat(st.seqTemp)).value])
  {
    HeaderLineNotBlank(h);
  }

  /** The last record of the file is stored with its header, its coverage
      and its joined sequence lines; with no sequence lines it raises. */
  lemma LastRecordStored(pre: seq<string>, h: string, body: seq<string>)
    requires IsHeaderLine(h) && CovOf(Strip(h)).Some?
    requires forall k :: 0 <= k < |body| ==> IsSequenceLine(body[k])
    requires ParseFrom(InitialParse, pre + [h]).Ok?
    ensures body == [] ==> ParseContigs(pre + [h] + body) == Err(ZeroDivisionError)
    ensures ParseContigs(pre + [h] + body).Ok? ==>
      && PopulateContig(Some(Strip(h)[1..]), CovOf(Strip(h)), Concat(StrippedAll(body))).Ok?
      && var cs := ParseContigs(pre + [h] + body).value;
         cs[|cs| - 1] == PopulateContig(Some(Strip(h)[1..]), CovOf(Strip(h)), Concat(StrippedAll(body))).value
  {
    var s := ParseFrom(InitialParse, pre + [h]).value;
    HeaderState(pre, h);
    RecordBuffered(pre + [h], body, s);
    var t := ParseState(s.contigs, StrippedAll(body), Some(Strip(h)[1..]), CovOf(Strip(h)));
    assert s.(seqTemp := StrippedAll(body)) == t;
    ParseContigsFrom(pre + [h] + body, t);
    if body == [] {
      assert Concat(StrippedAll([])) == [];
    }
  }

  /** The definition of `ParseContigs` from the loop's final state. */
  lemma ParseContigsFrom(lines: seq<string>, st: ParseState)
    requires ParseFrom(InitialParse, lines) == Ok(st)
    ensures ParseContigs(lines) ==
      match PopulateContig(st.header, st.cov, Concat(st.seqTemp))
      case Err(e) => Err(e)
      case Ok(c) => Ok(st.contigs + [c])
  {
  }

  /** After a header line and sequence lines, the buffer holds exactly the
      stripped sequence lines. */
  lemma RecordBuffered(head: seq<string>, body: seq<string>, s: ParseState)
    requires forall k :: 0 <= k < |body| ==> IsSequenceLine(body[k])
    requires ParseFrom(InitialParse, head) == Ok(s) && s.seqTemp == []
    ensures ParseFrom(InitialParse, head + body) == Ok(s.(seqTemp := StrippedAll(body)))
  {
    ParseFromAppend(InitialParse, head, body);
    SequenceLinesBuffered(s, body);
    assert s.seqTemp + StrippedAll(body) == StrippedAll(body);
  }

  lemma HeaderState(pre: seq<string>, h: string)
    requires IsHeaderLine(h) && CovOf(Strip(h)).Some?
    requires ParseFrom(InitialParse, pre + [h]).Ok?
    ensures var s := ParseFrom(InitialParse, pre + [h]).value;
      s.seqTemp == [] && s.header == Some(Strip(h)[1..]) && s.cov == CovOf(Strip(h))
  {
    assert (pre + [h])[..|pre|] == pre;
    var s0 := ParseFrom(InitialParse, pre);
    HeaderStarts(s0.value, h);
  }

  // ---------------------------------------------------------------------
  // Filtering rules

  /** A contig entry as `_test_truth` sees it. */
  datatype Value = IntV(i: int) | RealV(r: real) | StrV(s: string) | NoneV

  /** A rule's threshold: every rule the script builds compares with a
      number. */
  datatype Num = IntN(i: int) | RealN(r: real)

  /** A `[key, op, value]` comparison. */
  datatype Rule = Rule(key: string, op: string, value: Num)

  /** A `self.report` entry: "pass", or the first failing rule's
      `key/contig[key]/value`. */
  datatype Verdict = Pass | Rejected(key: string, value: Value, threshold: Num)

  /** `contig[key]` */
  function Field(c: Contig, key: string): Result<Value> {
    if key == "header" then Ok(if c.header.Some? then StrV(c.header.value) else NoneV)
    else if key == "sequence" then Ok(StrV(c.sequence))
    else if key == "length" then Ok(IntV(|c.sequence|))
    else if key == "kmer_cov" then Ok(if c.kmerCov.Some? then RealV(c.kmerCov.value) else NoneV)
    else if key == "at" then Ok(IntV(c.content.at))
    else if key == "gc" then Ok(IntV(c.content.gc))
    else if key == "n" then Ok(IntV(c.content.n))
    else if key == "at_prop" then Ok(RealV(c.content.AtProp()))
    else if key == "gc_prop" then Ok(RealV(c.content.GcProp()))
    else if key == "n_prop" then Ok(RealV(c.content.NProp()))
    else Err(KeyError)
  }

  predicate IsOperator(op: string) {
    op == ">" || op == "<" || op == ">=" || op == "<="
  }

  function NumReal(y: Num): real {
    match y case IntN(i) => i as real case RealN(r) => r
  }

  function Compare(x: real, op: string, y: real): bool {
    if op == ">" then x > y
    else if op == "<" then x < y
    else if op == ">=" then x >= y
    else x <= y
  }

  /** `_test_truth(x, op, y)`: the operator is looked up first (KeyError
      for anything but the four orderings), then the comparison raises
      TypeError unless `x` is a number. */
  function TestTruth(x: Value, op: string, y: Num): (r: Result<bool>)
    ensures r == Err(KeyError) <==> !IsOperator(op)
    ensures r == Err(TypeError) <==> IsOperator(op) && !(x.IntV? || x.RealV?)
  {
    if !IsOperator(op) then Err(KeyError)
    else match x
      case IntV(i) => Ok(Compare(i as real, op, NumReal(y)))
      case RealV(v) => Ok(Compare(v, op, NumReal(y)))
      case _ => Err(TypeError)
  }

  /** On numbers `<` is the negation of `>=` and `>` that of `<=`, and the
      comparison is the one on the numbers' values. */
  lemma TestTruthOnNumbers(x: Value, y: Num)
    requires x.IntV? || x.RealV?
    ensures var v := if x.IntV? then x.i as real else x.r;
      && TestTruth(x, ">=", y) == Ok(v >= NumReal(y))
      && TestTruth(x, "<=", y) == Ok(v <= NumReal(y))
      && TestTruth(x, "<", y) == Ok(!TestTruth(x, ">=", y).value)
      && TestTruth(x, ">", y) == Ok(!TestTruth(x, "<=", y).value)
  {
  }

  predicate Holds(c: Contig, rule: Rule) {
    Field(c, rule.key).Ok? && TestTruth(Field(c, rule.key).value, rule.op, rule.value) == Ok(true)
  }

  predicate FailsRule(c: Contig, rule: Rule) {
    Field(c, rule.key).Ok? && TestTruth(Field(c, rule.key).value, rule.op, rule.value) == Ok(false)
  }

  /** The inner loop of `filter_contigs` for one contig: the rules in order
      until the first that does not hold. */
  function FirstFailure(c: Contig, rules: seq<Rule>): Result<Verdict>
    decreases |rules|
  {
    if rules == [] then Ok(Pass)
    else
      var rule := rules[0];
      match Field(c, rule.key)
      case Err(e) => Err(e)
      case Ok(v) =>
        match TestTruth(v, rule.op, rule.value)
        case Err(e) => Err(e)
        case Ok(b) => if b then FirstFailure(c, rules[1..]) else Ok(Rejected(rule.key, v, rule.value))
  }

  /** A contig passes exactly when every rule holds for it. */
  lemma {:induction false} FirstFailurePass(c: Contig, rules: seq<Rule>)
    ensures FirstFailure(c, rules) == Ok(Pass) <==> forall i :: 0 <= i < |rules| ==> Holds(c, rules[i])
    decreases |rules|
  {
    if rules != [] {
      FirstFailurePass(c, rules[1..]);
      assert forall i :: 1 <= i < |rules| ==> rules[1..][i - 1] == rules[i];
      if forall i :: 1 <= i < |rules| ==> Holds(c, rules[i]) {
        assert forall i :: 0 <= i < |rules[1..]| ==> Holds(c, rules[1..][i]);
      }
    }
  }

  /** When rule `i` is the first that does not hold, the verdict records
      its key, the contig's value and its threshold. */
  lemma {:induction false} FirstFailureAt(c: Contig, rules: seq<Rule>, i: nat)
    requires i < |rules| && FailsRule(c, rules[i])
    requires forall j :: 0 <= j < i ==> Holds(c, rules[j])
    ensures FirstFailure(c, rules) == Ok(Rejected(rules[i].key, Field(c, rules[i].key).value, rules[i].value))
    decreases i
  {
    if i > 0 {
      assert Holds(c, rules[0]);
      assert forall j :: 0 <= j < i - 1 ==> rules[1..][j] == rules[j + 1];
      FirstFailureAt(c, rules[1..], i - 1);
    }
  }

  /** The two rules `filter_contigs` always appends. */
  const MinGc: real := 0.05
  const GcFilters: seq<Rule> := [Rule("gc_prop", ">=", RealN(MinGc)), Rule("gc_prop", "<=", RealN(1.0 - MinGc))]

  /** The filters `__init__` starts with. */
  function LengthRule(minContigLen: int): Rule {
    Rule("length", ">=", IntN(minContigLen))
  }

  function InitialFilters(minContigLen: int, minKmerCov: int): seq<Rule> {
    [LengthRule(minContigLen), Rule("kmer_cov", ">=", IntN(minKmerCov))]
  }

  function VerdictOf(rules: seq<Rule>): Contig -> Result<Verdict> {
    c => FirstFailure(c, rules)
  }

  /** The verdicts of `filter_contigs(*comparisons)` for every contig, in
      order, with the GC rules after the caller's; the first error
      raised ends it. */
  function Verdicts(contigs: seq<Contig>, comparisons: seq<Rule>): Result<seq<Verdict>> {
    MapResult(contigs, VerdictOf(comparisons + GcFilters))
  }

  /** `filtered_ids`: the ids whose verdict is a rejection, in order. */
  function RejectedIds(vs: seq<Verdict>): seq<int>
    decreases |vs|
  {
    if vs == [] then []
    else
      var n := |vs| - 1;
      RejectedIds(vs[..n]) + (if vs[n].Rejected? then [n] else [])
  }

  lemma RejectedIdsSnoc(vs: seq<Verdict>, v: Verdict)
    ensures RejectedIds(vs + [v]) == RejectedIds(vs) + (if v.Rejected? then [|vs|] else [])
  {
    assert (vs + [v])[..|vs|] == vs;
  }

  /** Each rejected id appears once, in increasing order, and only those. */
  lemma {:induction false} RejectedIdsMembers(vs: seq<Verdict>)
    ensures forall x :: x in RejectedIds(vs) <==> 0 <= x < |vs| && vs[x].Rejected?
    ensures forall i, j :: 0 <= i < j < |RejectedIds(vs)| ==> RejectedIds(vs)[i] < RejectedIds(vs)[j]
    decreases |vs|
  {
    if vs != [] {
      var n := |vs| - 1;
      RejectedIdsMembers(vs[..n]);
      assert forall x :: 0 <= x < n ==> vs[..n][x] == vs[x];
      RejectedIdsSorted(vs, RejectedIds(vs[..n]));
    }
  }

  lemma RejectedIdsSorted(vs: seq<Verdict>, pre: seq<int>)
    requires vs != [] && pre == RejectedIds(vs[..|vs| - 1])
    requires forall x :: x in pre ==> x < |vs| - 1
    requires forall i, j :: 0 <= i < j < |pre| ==> pre[i] < pre[j]
    ensures forall i, j :: 0 <= i < j < |RejectedIds(vs)| ==> RejectedIds(vs)[i] < RejectedIds(vs)[j]
  {
    assert forall i :: 0 <= i < |pre| ==> pre[i] in pre;
  }

  /** Without the k-mer rule every contig that passed still passes, and
      none raises: the GC rules never do. */
  lemma RetryPassesMore(c: Contig, a: Rule, b: Rule)
    requires FirstFailure(c, [a, b] + GcFilters).Ok?
    ensures FirstFailure(c, [a] + GcFilters).Ok?
    ensures FirstFailure(c, [a, b] + GcFilters) == Ok(Pass) ==> FirstFailure(c, [a] + GcFilters) == Ok(Pass)
  {
    assert ([a, b] + GcFilters)[1..] == [b] + GcFilters;
    assert ([a] + GcFilters)[1..] == GcFilters;
    assert ([b] + GcFilters)[1..] == GcFilters;
    GcFiltersNeverRaise(c);
  }

  /** The GC rules compare a float with a float: they never raise. */
  lemma GcFiltersNeverRaise(c: Contig)
    ensures FirstFailure(c, GcFilters).Ok?
  {
    assert GcFilters[1..] == [GcFilters[1]];
    assert [GcFilters[1]][1..] == [];
    assert Field(c, "gc_prop").Ok? && Field(c, "gc_prop").value.RealV?;
    assert FirstFailure(c, [GcFilters[1]]).Ok?;
  }

  // ---------------------------------------------------------------------
  // Assembly length and output

  /** The contigs whose id is not in `ids`, in id order. */
  function KeptContigs(contigs: seq<Contig>, ids: seq<int>): (r: seq<Contig>)
    ensures |r| <= |contigs|
    decreases |contigs|
  {
    if contigs == [] then []
    else
      var n := |contigs| - 1;
      KeptContigs(contigs[..n], ids) + (if n in ids then [] else [contigs[n]])
  }

  function TotalLength(contigs: seq<Contig>): int
    decreases |contigs|
  {
    if contigs == [] then 0 else TotalLength(contigs[..|contigs| - 1]) + |contigs[|contigs| - 1].sequence|
  }

  lemma TotalLengthSnoc(cs: seq<Contig>, c: Contig)
    ensures TotalLength(cs + [c]) == TotalLength(cs) + |c.sequence|
  {
    assert (cs + [c])[..|cs|] == cs;
  }

  /** `get_assembly_length`: the summed lengths of the contigs not in
      `filtered_ids`. */
  function KeptLength(contigs: seq<Contig>, ids: seq<int>): int {
    TotalLength(KeptContigs(contigs, ids))
  }

  /** The kept length never exceeds the whole assembly's, and equals it
      when no contig is filtered out. */
  lemma {:induction false} KeptLengthBound(contigs: seq<Contig>, ids: seq<int>)
    ensures 0 <= KeptLength(contigs, ids) <= TotalLength(contigs)
    ensures (forall x :: x in ids ==> !(0 <= x < |contigs|)) ==> KeptLength(contigs, ids) == TotalLength(contigs)
    decreases |contigs|
  {
    if contigs != [] {
      var n := |contigs| - 1;
      KeptLengthBound(contigs[..n], ids);
      var kept := KeptContigs(contigs[..n], ids);
      TotalLengthSnoc(kept, contigs[n]);
      assert kept + [] == kept;
    }
  }

  /** Filtering out fewer ids keeps at least as much sequence. */
  lemma {:induction false} KeptLengthMono(contigs: seq<Contig>, more: seq<int>, fewer: seq<int>)
    requires forall x :: 0 <= x < |contigs| && x in fewer ==> x in more
    ensures KeptLength(contigs, more) <= KeptLength(contigs, fewer)
    decreases |contigs|
  {
    if contigs != [] {
      var n := |contigs| - 1;
      KeptLengthMono(contigs[..n], more, fewer);
      var a := KeptContigs(contigs[..n], more);
      var b := KeptContigs(contigs[..n], fewer);
      TotalLengthSnoc(a, contigs[n]);
      TotalLengthSnoc(b, contigs[n]);
      assert a + [] == a;
      assert b + [] == b;
    }
  }

  /** The retry without the k-mer rule never shrinks the kept assembly, and
      it cannot raise once the first filtering succeeded. */
  lemma RetryNeverShrinks(contigs: seq<Contig>, minContigLen: int, minKmerCov: int)
    requires Verdicts(contigs, InitialFilters(minContigLen, minKmerCov)).Ok?
    ensures Verdicts(contigs, [LengthRule(minContigLen)]).Ok?
    ensures KeptLength(contigs, RejectedIds(Verdicts(contigs, InitialFilters(minContigLen, minKmerCov)).value))
         <= KeptLength(contigs, RejectedIds(Verdicts(contigs, [LengthRule(minContigLen)]).value))
  {
    var a := LengthRule(minContigLen);
    var b := Rule("kmer_cov", ">=", IntN(minKmerCov));
    assert InitialFilters(minContigLen, minKmerCov) + GcFilters == [a, b] + GcFilters;
    var first := Verdicts(contigs, [a, b]).value;
    forall i | 0 <= i < |contigs|
      ensures FirstFailure(contigs[i], [a] + GcFilters).Ok?
      ensures first[i] == Pass ==> FirstFailure(contigs[i], [a] + GcFilters) == Ok(Pass)
    {
      assert VerdictOf([a, b] + GcFilters)(contigs[i]).Ok?;
      RetryPassesMore(contigs[i], a, b);
    }
    var second := Verdicts(contigs, [a]).value;
    RejectedIdsMembers(first);
    RejectedIdsMembers(second);
    KeptLengthMono(contigs, RejectedIds(first), RejectedIds(second));
  }

  /** `">{sample}_{header}\n{sequence}\n"` for one contig. */
  function FastaRecord(sample: string, c: Contig): string {
    ">" + sample + "_" + (if c.header.Some? then c.header.value else "None") + "\n" + c.sequence + "\n"
  }

  /** What `write_assembly(output_file, filtered)` writes: the record of
      each contig not in `filtered_ids`, and only when `filtered` is set. */
  function AssemblyText(contigs: seq<Contig>, ids: seq<int>, sample: string, filtered: bool): string
    decreases |contigs|
  {
    if contigs == [] then ""
    else
      var n := |contigs| - 1;
      AssemblyText(contigs[..n], ids, sample, filtered)
        + (if !(n in ids) && filtered then FastaRecord(sample, contigs[n]) else "")
  }

  function Records(sample: string, cs: seq<Contig>): (r: seq<string>)
    ensures |r| == |cs|
    decreases |cs|
  {
    if cs == [] then [] else Records(sample, cs[..|cs| - 1]) + [FastaRecord(sample, cs[|cs| - 1])]
  }

  lemma RecordsSnoc(sample: string, cs: seq<Contig>, c: Contig)
    ensures Records(sample, cs + [c]) == Records(sample, cs) + [FastaRecord(sample, c)]
  {
    assert (cs + [c])[..|cs|] == cs;
  }

  /** The filtered assembly is the kept contigs' records in contig order;
      with `filtered=False` nothing is written. */
  lemma {:induction false} AssemblyTextKept(contigs: seq<Contig>, ids: seq<int>, sample: string)
    ensures AssemblyText(contigs, ids, sample, true) == Concat(Records(sample, KeptContigs(contigs, ids)))
    ensures AssemblyText(contigs, ids, sample, false) == ""
    decreases |contigs|
  {
    if contigs != [] {
      var n := |contigs| - 1;
      AssemblyTextKept(contigs[..n], ids, sample);
      var kept := KeptContigs(contigs[..n], ids);
      if !(n in ids) {
        RecordsSnoc(sample, kept, contigs[n]);
        ConcatAppend(Records(sample, kept), [FastaRecord(sample, contigs[n])]);
        assert Concat([FastaRecord(sample, contigs[n])]) == FastaRecord(sample, contigs[n]);
      } else {
        assert kept + [] == kept;
      }
    }
  }

  /** `str()` of a report value; floats are shown by `showReal`. */
  function ValueText(v: Value, showReal: real -> string): string {
    match v
    case IntV(i) => IntToString(i)
    case RealV(r) => showReal(r)
    case StrV(s) => s
    case NoneV => "None"
  }

  function NumText(y: Num, showReal: real -> string): string {
    match y case IntN(i) => IntToString(i) case RealN(r) => showReal(r)
  }

  function VerdictText(v: Verdict, showReal: real -> string): string {
    match v
    case Pass => "pass"
    case Rejected(key, value, threshold) => key + "/" + ValueText(value, showReal) + "/" + NumText(threshold, showReal)
  }

  /** What `write_report` writes: `"{id}, {verdict}\n"` per contig. */
  function ReportText(vs: seq<Verdict>, showReal: real -> string): string
    decreases |vs|
  {
    if vs == [] then ""
    else
      var n := |vs| - 1;
      ReportText(vs[..n], showReal) + IntToString(n) + ", " + VerdictText(vs[n], showReal) + "\n"
  }

  // ---------------------------------------------------------------------
  // The assembly object

  class SpadesAssembly {
    var contigs: seq<Contig>
    var filteredIds: seq<int>
    var report: seq<Verdict>
    var filters: seq<Rule>
    const sample: string

    /** `__init__` up to the parse. */
    constructor (sampleId: string, minContigLen: int, minKmerCov: int)
      ensures contigs == [] && filteredIds == [] && report == []
      ensures filters == InitialFilters(minContigLen, minKmerCov) && sample == sampleId
    {
      contigs := [];
      filteredIds := [];
      report := [];
      filters := InitialFilters(minContigLen, minKmerCov);
      sample := sampleId;
    }

    /** One pass of `_parse_assembly`'s loop over a line. */
    static method ParseLine(st: ParseState, line: string) returns (r: Result<ParseState>)
      ensures r == ParseStep(st, line)
    {
      var stored, seqTemp, header, cov := st.contigs, st.seqTemp, st.header, st.cov;
      var l := Strip(line);
      if l == [] {
        StepBlank(st, line);
        return Ok(st);
      }
      if StartsWith(l, ">") {
        StepHeader(st, line, l);
        if seqTemp != [] {
          var populated := PopulateContig(header, cov, Concat(seqTemp));
          if populated.Err? {
            return Err(populated.error);
          }
          stored := stored + [populated.value];
          seqTemp := [];
        }
        ghost var mid := ParseState(stored, seqTemp, header, cov);
        assert StorePending(st) == Ok(mid);
        var c := CovOf(l);
        if c.None? {
          return Err(ValueError);
        }
        TakeHeaderOk(mid, l);
        header := Some(l[1..]);
        cov := c;
      } else {
        StepSequence(st, line, l);
        seqTemp := seqTemp + [l];
      }
      r := Ok(ParseState(stored, seqTemp, header, cov));
    }

    /** `_parse_assembly` over the file's lines, into the empty
        `self.contigs`. */
    method ParseAssembly(lines: seq<string>) returns (err: Option<Error>)
      requires contigs == []
      modifies this`contigs
      ensures err.None? <==> ParseContigs(lines).Ok?
      ensures err.Some? ==> err.value == ParseContigs(lines).error
      ensures err.None? ==> contigs == ParseContigs(lines).value
    {
      var stored: seq<Contig> := [];
      var seqTemp: seq<string> := [];
      var cov: Option<real> := None;
      var header: Option<string> := None;
      var i := 0;
      assert lines[..0] == [];
      while i < |lines|
        invariant 0 <= i <= |lines|
        invariant ParseFrom(InitialParse, lines[..i]) == Ok(ParseState(stored, seqTemp, header, cov))
      {
        var st := ParseState(stored, seqTemp, header, cov);
        var next := ParseLine(st, lines[i]);
        if next.Err? {
          ParseStopsAt(lines, i, st);
          return Some(next.error);
        }
        ParseGoesOn(lines, i, st, next.value);
        stored, seqTemp, header, cov := next.value.contigs, next.value.seqTemp, next.value.header, next.value.cov;
        i := i + 1;
      }
      assert lines[..i] == lines;
      var populated := PopulateContig(header, cov, Concat(seqTemp));
      if populated.Err? {
        return Some(populated.error);
      }
      contigs := stored + [populated.value];
      err := None;
    }

    /** The inner loop of `filter_contigs`: the rules in order, up to the
        first one the contig fails. */
    static method TestContig(contig: Contig, rules: seq<Rule>) returns (r: Result<Verdict>)
      ensures r == FirstFailure(contig, rules)
    {
      var j := 0;
      while j < |rules|
        invariant 0 <= j <= |rules|
        invariant FirstFailure(contig, rules) == FirstFailure(contig, rules[j..])
      {
        var rule := rules[j];
        assert rules[j..][1..] == rules[j + 1..];
        var value := Field(contig, rule.key);
        if value.Err? {
          return Err(value.error);
        }
        var test := TestTruth(value.value, rule.op, rule.value);
        if test.Err? {
          return Err(test.error);
        }
        if !test.value {
          return Ok(Rejected(rule.key, value.value, rule.value));
        }
        j := j + 1;
      }
      r := Ok(Pass);
    }

    /** `filter_contigs(*comparisons)`: resets `filtered_ids` and `report`,
        sets `filters`, then tests every contig against the rules. */
    method FilterContigs(comparisons: seq<Rule>) returns (err: Option<Error>)
      modifies this`filteredIds, this`report, this`filters
      ensures filters == comparisons + GcFilters
      ensures err.None? <==> Verdicts(contigs, comparisons).Ok?
      ensures err.Some? ==> err.value == Verdicts(contigs, comparisons).error
      ensures err.None? ==> report == Verdicts(contigs, comparisons).value && filteredIds == RejectedIds(report)
    {
      filteredIds := [];
      report := [];
      filters := comparisons + GcFilters;
      var rules := comparisons + GcFilters;
      var cs := contigs;
      ghost var f := VerdictOf(rules);
      var i := 0;
      assert cs[..0] == [];
      while i < |cs|
        invariant 0 <= i <= |cs|
        invariant filters == rules
        invariant MapResult(cs[..i], f) == Ok(report)
        invariant filteredIds == RejectedIds(report)
      {
        var outcome := TestContig(cs[i], rules);
        assert f(cs[i]) == outcome;
        MapResultStep(cs, i, f);
        if outcome.Err? {
          return Some(outcome.error);
        }
        var verdict := outcome.value;
        if verdict.Rejected? {
          filteredIds := filteredIds + [i];
        }
        RejectedIdsSnoc(report, verdict);
        report := report + [verdict];
        i := i + 1;
      }
      assert cs[..i] == cs;
      err := None;
    }
  }

  // ---------------------------------------------------------------------
  // main

  /** The `.report.json` values and the files `main` writes. */
  datatype SpadesOutcome = SpadesOutcome(warnings: seq<string>, fails: Option<string>, assembly: string, report: string)

  /** `[int(x) for x in opts]` unpacked into three values. */
  function ParseOpts(opts: seq<string>): Result<(int, int, int)> {
    if |opts| == 3 && ParseInt(opts[0]).Some? && ParseInt(opts[1]).Some? && ParseInt(opts[2]).Some? then
      Ok((ParseInt(opts[0]).value, ParseInt(opts[1]).value, ParseInt(opts[2]).value))
    else Err(ValueError)
  }

  function T80(gsize: real): real { gsize * 1000000.0 * 0.8 }
  function T150(gsize: real): real { gsize * 1000000.0 * 1.5 }

  function SmallFail(len: int): string { "Small_genome_size_(" + IntToString(len) + ")" }
  function LargeFail(len: int): string { "Large_genome_size_(" + IntToString(len) + ")" }

  /** `fails` as `main` assigns it: small after the retry when both
      lengths are below 80%, then overwritten by large above 150%. */
  function GenomeSizeFail(firstLen: int, finalLen: int, gsize: real): Option<string> {
    var small := if firstLen as real < T80(gsize) && finalLen as real < T80(gsize) then Some(SmallFail(finalLen)) else None;
    if finalLen as real > T150(gsize) then Some(LargeFail(finalLen)) else small
  }

  /** Since the length only changes through the retry, the verdict depends
      on the final kept length alone: large above 150%, otherwise small
      below 80%, otherwise none. */
  lemma GenomeSizeFailCharacterised(firstLen: int, finalLen: int, gsize: real)
    requires firstLen as real >= T80(gsize) ==> finalLen == firstLen
    ensures GenomeSizeFail(firstLen, finalLen, gsize) == Some(LargeFail(finalLen)) <==> finalLen as real > T150(gsize)
    ensures GenomeSizeFail(firstLen, finalLen, gsize) == Some(SmallFail(finalLen)) <==>
      finalLen as real < T80(gsize) && !(finalLen as real > T150(gsize))
    ensures GenomeSizeFail(firstLen, finalLen, gsize).None? <==> T80(gsize) <= finalLen as real <= T150(gsize)
  {
    assert SmallFail(finalLen)[0] == 'S';
    assert LargeFail(finalLen)[0] == 'L';
  }

  /** `warnings`: the moderate excess-contig warning when the number of
      parsed contigs, kept or not, is above `max_contigs * gsize / 1.5`. */
  const ExcessiveContigs := "excessive_contigs:moderate"

  /** The contig count above which a warning is raised. */
  function ContigLimit(maxContigs: int, gsize: real): real {
    (maxContigs as real * gsize) / 1.5
  }

  function ContigWarnings(nContigs: int, maxContigs: int, gsize: real): seq<string> {
    if nContigs as real > ContigLimit(maxContigs, gsize) then [ExcessiveContigs] else []
  }

  /** The two filterings: the first with the length and k-mer rules, and
      the retry with the length rule only when the kept length is below
      80%; the first kept length and the final verdicts. */
  function Filterings(contigs: seq<Contig>, minContigLen: int, minKmerCov: int, gsize: real): Result<(int, seq<Verdict>)> {
    match Verdicts(contigs, InitialFilters(minContigLen, minKmerCov))
    case Err(e) => Err(e)
    case Ok(first) =>
      var firstLen := KeptLength(contigs, RejectedIds(first));
      if firstLen as real < T80(gsize) then
        match Verdicts(contigs, [LengthRule(minContigLen)])
        case Err(e) => Err(e)
        case Ok(second) => Ok((firstLen, second))
      else Ok((firstLen, first))
  }

  /** The final verdicts keep at least the first filtering's length, and
      they are the first filtering's unless that fell below 80%. */
  lemma FilteringsRetry(contigs: seq<Contig>, minContigLen: int, minKmerCov: int, gsize: real)
    requires Filterings(contigs, minContigLen, minKmerCov, gsize).Ok?
    ensures var (firstLen, final) := Filterings(contigs, minContigLen, minKmerCov, gsize).value;
      && firstLen <= KeptLength(contigs, RejectedIds(final))
      && (firstLen as real >= T80(gsize) ==> KeptLength(contigs, RejectedIds(final)) == firstLen)
  {
    RetryNeverShrinks(contigs, minContigLen, minKmerCov);
  }

  /** `main`, from the options to the outputs; an error means status
      "error", a result means status "pass". */
  function SpadesRun(lines: seq<string>, fastqId: string, gsize: real, opts: seq<string>, showReal: real -> string): Result<SpadesOutcome> {
    match ParseOpts(opts)
    case Err(e) => Err(e)
    case Ok((minContigLen, minKmerCov, maxContigs)) =>
      match ParseContigs(lines)
      case Err(e) => Err(e)
      case Ok(contigs) =>
        match Filterings(contigs, minContigLen, minKmerCov, gsize)
        case Err(e) => Err(e)
        case Ok((firstLen, final)) =>
          var finalLen := KeptLength(contigs, RejectedIds(final));
          Ok(SpadesOutcome(ContigWarnings(|contigs|, maxContigs, gsize),
                           GenomeSizeFail(firstLen, finalLen, gsize),
                           AssemblyText(contigs, RejectedIds(final), fastqId, true),
                           ReportText(final, showReal)))
  }

  /** A run's size verdict is decided by the length the written assembly
      keeps: large above 150% of the genome size, small below 80%. */
  lemma SpadesRunSizeGate(lines: seq<string>, fastqId: string, gsize: real, opts: seq<string>, showReal: real -> string)
    requires SpadesRun(lines, fastqId, gsize, opts, showReal).Ok?
    ensures var (minContigLen, minKmerCov, _) := ParseOpts(opts).value;
      var contigs := ParseContigs(lines).value;
      var final := Filterings(contigs, minContigLen, minKmerCov, gsize).value.1;
      var len := KeptLength(contigs, RejectedIds(final));
      var fails := SpadesRun(lines, fastqId, gsize, opts, showReal).value.fails;
      && (fails == Some(LargeFail(len)) <==> len as real > T150(gsize))
      && (fails == Some(SmallFail(len)) <==> len as real < T80(gsize) && !(len as real > T150(gsize)))
      && (fails.None? <==> T80(gsize) <= len as real <= T150(gsize))
  {
    var (minContigLen, minKmerCov, _) := ParseOpts(opts).value;
    var contigs := ParseContigs(lines).value;
    FilteringsRetry(contigs, minContigLen, minKmerCov, gsize);
    var (firstLen, final) := Filterings(contigs, minContigLen, minKmerCov, gsize).value;
    GenomeSizeFailCharacterised(firstLen, KeptLength(contigs, RejectedIds(final)), gsize);
  }

  lemma FilteringsKept(contigs: seq<Contig>, minContigLen: int, minKmerCov: int, gsize: real, first: seq<Verdict>)
    requires Verdicts(contigs, InitialFilters(minContigLen, minKmerCov)) == Ok(first)
    requires !(KeptLength(contigs, RejectedIds(first)) as real < T80(gsize))
    ensures Filterings(contigs, minContigLen, minKmerCov, gsize) == Ok((KeptLength(contigs, RejectedIds(first)), first))
  {
  }

  lemma FilteringsRetried(contigs: seq<Contig>, minContigLen: int, minKmerCov: int, gsize: real, first: seq<Verdict>)
    requires Verdicts(contigs, InitialFilters(minContigLen, minKmerCov)) == Ok(first)
    requires KeptLength(contigs, RejectedIds(first)) as real < T80(gsize)
    ensures Filterings(contigs, minContigLen, minKmerCov, gsize) ==
      match Verdicts(contigs, [LengthRule(minContigLen)])
      case Err(e) => Err(e)
      case Ok(second) => Ok((KeptLength(contigs, RejectedIds(first)), second))
  {
  }

  lemma SpadesRunOk(lines: seq<string>, fastqId: string, gsize: real, opts: seq<string>, showReal: real -> string,
                    contigs: seq<Contig>, firstLen: int, final: seq<Verdict>)
    requires ParseOpts(opts).Ok? && ParseContigs(lines) == Ok(contigs)
    requires Filterings(contigs, ParseOpts(opts).value.0, ParseOpts(opts).value.1, gsize) == Ok((firstLen, final))
    ensures SpadesRun(lines, fastqId, gsize, opts, showReal) ==
      Ok(SpadesOutcome(ContigWarnings(|contigs|, ParseOpts(opts).value.2, gsize),
                       GenomeSizeFail(firstLen, KeptLength(contigs, RejectedIds(final)), gsize),
                       AssemblyText(contigs, RejectedIds(final), fastqId, true),
                       ReportText(final, showReal)))
  {
  }

  lemma SpadesRunFilterErr(lines: seq<string>, fastqId: string, gsize: real, opts: seq<string>, showReal: real -> string,
                           contigs: seq<Contig>)
    requires ParseOpts(opts).Ok? && ParseContigs(lines) == Ok(contigs)
    requires Filterings(contigs, ParseOpts(opts).value.0, ParseOpts(opts).value.1, gsize).Err?
    ensures SpadesRun(lines, fastqId, gsize, opts, showReal) ==
      Err(Filterings(contigs, ParseOpts(opts).value.0, ParseOpts(opts).value.1, gsize).error)
  {
  }

  /** The excessive-contigs check of the main procedure. */
  method WarnExcessiveContigs(warnings: seq<string>, nContigs: int, maxContigs: int, gsize: real)
    returns (w: seq<string>)
    ensures w == warnings + ContigWarnings(nContigs, maxContigs, gsize)
  {
    w := warnings;
    var contigThreshold := ContigLimit(maxContigs, gsize);
    if nContigs as real > contigThreshold {
      w := w + [ExcessiveContigs];
    }
  }

  /** The over-150% check of the main procedure. */
  method CheckLarge(fails: Option<string>, assemblyLen: int, gsize: real) returns (f: Option<string>)
    ensures f == if assemblyLen as real > T150(gsize) then Some(LargeFail(assemblyLen)) else fails
  {
    f := fails;
    var t150 := T150(gsize);
    if (assemblyLen as real) > t150 {
      f := Some(LargeFail(assemblyLen));
    }
  }

  /** The main procedure, reassigning `fails` and `warnings` as it goes. */
  method ProcessSpades(lines: seq<string>, fastqId: string, gsize: real, opts: seq<string>, showReal: real -> string)
    returns (r: Result<SpadesOutcome>)
    ensures r == SpadesRun(lines, fastqId, gsize, opts, showReal)
  {
    var warnings: seq<string> := [];
    var fails: Option<string> := None;
    var parsed := ParseOpts(opts);
    if parsed.Err? {
      return Err(parsed.error);
    }
    var (minContigLen, minKmerCov, maxContigs) := parsed.value;
    var spadesAssembly := new SpadesAssembly(fastqId, minContigLen, minKmerCov);
    var err := spadesAssembly.ParseAssembly(lines);
    if err.Some? {
      return Err(err.value);
    }
    ghost var contigs := spadesAssembly.contigs;
    err := spadesAssembly.FilterContigs(spadesAssembly.filters);
    if err.Some? {
      SpadesRunFilterErr(lines, fastqId, gsize, opts, showReal, contigs);
      return Err(err.value);
    }
    ghost var first := spadesAssembly.report;
    var t80 := T80(gsize);
    var assemblyLen := KeptLength(spadesAssembly.contigs, spadesAssembly.filteredIds);
    ghost var firstLen := assemblyLen;
    if (assemblyLen as real) < t80 {
      FilteringsRetried(contigs, minContigLen, minKmerCov, gsize, first);
      err := spadesAssembly.FilterContigs([LengthRule(minContigLen)]);
      if err.Some? {
        SpadesRunFilterErr(lines, fastqId, gsize, opts, showReal, contigs);
        return Err(err.value);
      }
      assemblyLen := KeptLength(spadesAssembly.contigs, spadesAssembly.filteredIds);
      if (assemblyLen as real) < t80 {
        fails := Some(SmallFail(assemblyLen));
      }
    } else {
      FilteringsKept(contigs, minContigLen, minKmerCov, gsize, first);
    }
    fails := CheckLarge(fails, assemblyLen, gsize);
    assert fails == GenomeSizeFail(firstLen, assemblyLen, gsize);
    assert |spadesAssembly.contigs| == |contigs|;
    warnings := WarnExcessiveContigs(warnings, |spadesAssembly.contigs|, maxContigs, gsize);
    assert warnings == ContigWarnings(|contigs|, maxContigs, gsize);
    SpadesRunOk(lines, fastqId, gsize, opts, showReal, contigs, firstLen, spadesAssembly.report);
    r := Ok(SpadesOutcome(warnings, fails,
                          AssemblyText(spadesAssembly.contigs, spadesAssembly.filteredIds, fastqId, true),
                          ReportText(spadesAssembly.report, showReal)));
  }
}
