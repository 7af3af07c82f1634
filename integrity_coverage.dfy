/** `integrity_coverage.py`: the compression of a FastQ file from its first
    bytes, the quality encoding from the range of quality characters, and
    the coverage estimate and maximum read length from one pass over the
    reads. */
module IntegrityCoverage {
  import opened Wrappers
  import opened Strings
  import opened Numbers

  // ------------------------------------------------------- compression

  type Byte = b: int | 0 <= b < 256

  datatype Compression = Gz | Bz2 | Zip

  /** `MAGIC_DICT`: the signature of each compression format, in order. */
  const MagicDict: seq<(seq<Byte>, Compression)> := [
    ([0x1f, 0x8b, 0x08], Gz),
    ([0x42, 0x5a, 0x68], Bz2),
    ([0x50, 0x4b, 0x03, 0x04], Zip)
  ]

  /** `max(len(x) for x in magic_dict)` */
  const MaxMagicLen := 4

  /** `bytes.startswith` */
  predicate BytesStartWith(s: seq<Byte>, p: seq<Byte>) {
    |p| <= |s| && s[..|p|] == p
  }

  /** The first signature in `table` that `start` begins with. */
  function MatchMagic(start: seq<Byte>, table: seq<(seq<Byte>, Compression)>): Option<Compression> {
    if table == [] then None
    else if BytesStartWith(start, table[0].0) then Some(table[0].1)
    else MatchMagic(start, table[1..])
  }

  /** `guess_file_compression` on the file's content: the format whose
      signature starts the first `max_len` bytes, or None. */
  function GuessFileCompression(content: seq<Byte>): Option<Compression> {
    var start := if |content| <= MaxMagicLen then content else content[..MaxMagicLen];
    MatchMagic(start, MagicDict)
  }

  /** No signature is a prefix of another, so at most one can match. */
  lemma SignaturesExclusive(s: seq<Byte>)
    ensures forall i, j :: 0 <= i < j < |MagicDict| ==> !(BytesStartWith(s, MagicDict[i].0) && BytesStartWith(s, MagicDict[j].0))
  {
    forall i, j | 0 <= i < j < |MagicDict| && BytesStartWith(s, MagicDict[i].0)
      ensures !BytesStartWith(s, MagicDict[j].0)
    {
      assert s[0] == MagicDict[i].0[0] != MagicDict[j].0[0];
    }
  }

  /** The scan tries the signatures in table order. */
  lemma MatchMagicUnfold(start: seq<Byte>)
    ensures MatchMagic(start, MagicDict) ==
      if BytesStartWith(start, MagicDict[0].0) then Some(Gz)
      else if BytesStartWith(start, MagicDict[1].0) then Some(Bz2)
      else if BytesStartWith(start, MagicDict[2].0) then Some(Zip)
      else None
  {
    var t1 := MagicDict[1..];
    var t2 := MagicDict[2..];
    assert t2[0] == MagicDict[2] && t2[1..] == [];
    assert MatchMagic(start, t2) == if BytesStartWith(start, MagicDict[2].0) then Some(Zip) else None;
    assert t1[0] == MagicDict[1] && t1[1..] == t2;
    assert MatchMagic(start, t1) == if BytesStartWith(start, MagicDict[1].0) then Some(Bz2) else MatchMagic(start, t2);
  }

  /** Only the first `max_len` bytes are read, and no signature is longer. */
  lemma StartDecides(content: seq<Byte>, i: nat)
    requires i < |MagicDict|
    ensures var start := if |content| <= MaxMagicLen then content else content[..MaxMagicLen];
      BytesStartWith(start, MagicDict[i].0) <==> BytesStartWith(content, MagicDict[i].0)
  {
    var p := MagicDict[i].0;
    if |content| > MaxMagicLen {
      assert content[..MaxMagicLen][..|p|] == content[..|p|];
    }
  }

  /** The guess names a format exactly when the content starts with that
      format's signature, and is None when it starts with none of them. */
  lemma GuessFileCompressionSpec(content: seq<Byte>)
    ensures forall i :: 0 <= i < |MagicDict| ==>
      (GuessFileCompression(content) == Some(MagicDict[i].1) <==> BytesStartWith(content, MagicDict[i].0))
    ensures GuessFileCompression(content) == None <==>
      forall i :: 0 <= i < |MagicDict| ==> !BytesStartWith(content, MagicDict[i].0)
  {
    var start := if |content| <= MaxMagicLen then content else content[..MaxMagicLen];
    StartDecides(content, 0);
    StartDecides(content, 1);
    StartDecides(content, 2);
    MatchMagicUnfold(start);
    SignaturesExclusive(content);
  }

  // ----------------------------------------------------------- encodings

  /** `get_qual_range`: the smallest and largest code point of the
      characters; `min()` of an empty list raises ValueError. */
  function QualRange(q: string): (r: Result<(int, int)>)
    ensures r.Err? <==> q == []
    ensures r.Err? ==> r.error == ValueError
    ensures r.Ok? ==> r.value.0 <= r.value.1
  {
    if q == [] then Err(ValueError)
    else if |q| == 1 then Ok((q[0] as int, q[0] as int))
    else
      var rest := QualRange(q[1..]).value;
      Ok((if q[0] as int < rest.0 then q[0] as int else rest.0,
          if q[0] as int > rest.1 then q[0] as int else rest.1))
  }

  /** The range holds every code point and its ends are code points of the
      string. */
  lemma {:induction false} QualRangeSpec(q: string)
    requires q != []
    ensures forall i :: 0 <= i < |q| ==> QualRange(q).value.0 <= q[i] as int <= QualRange(q).value.1
    ensures exists i :: 0 <= i < |q| && q[i] as int == QualRange(q).value.0
    ensures exists i :: 0 <= i < |q| && q[i] as int == QualRange(q).value.1
  {
    var lo, hi := QualRange(q).value.0, QualRange(q).value.1;
    if |q| == 1 {
      assert q[0] as int == lo && q[0] as int == hi;
    } else {
      var tail := q[1..];
      QualRangeSpec(tail);
      var r := QualRange(tail).value;
      assert lo == (if q[0] as int < r.0 then q[0] as int else r.0);
      assert hi == (if q[0] as int > r.1 then q[0] as int else r.1);
      forall i | 0 <= i < |q| ensures lo <= q[i] as int <= hi {
        if i > 0 {
          assert q[i] == tail[i - 1];
        }
      }
      var a :| 0 <= a < |tail| && tail[a] as int == r.0;
      var b :| 0 <= b < |tail| && tail[b] as int == r.1;
      assert q[a + 1] == tail[a] && q[b + 1] == tail[b];
      if q[0] as int < r.0 {
        assert q[0] as int == lo;
      } else {
        assert q[a + 1] as int == lo;
      }
      if q[0] as int > r.1 {
        assert q[0] as int == hi;
      } else {
        assert q[b + 1] as int == hi;
      }
    }
  }

  datatype EncodingRow = EncodingRow(name: string, phred: int, emin: int, emax: int)

  /** `RANGES`, in its order. */
  const Ranges: seq<EncodingRow> := [
    EncodingRow("Sanger", 33, 33, 73),
    EncodingRow("Illumina-1.8", 33, 33, 74),
    EncodingRow("Solexa", 64, 59, 104),
    EncodingRow("Illumina-1.3", 64, 64, 104),
    EncodingRow("Illumina-1.5", 64, 66, 105)
  ]

  /** The row's range contains `[rmin, rmax]`. */
  predicate Covers(row: EncodingRow, rmin: int, rmax: int) {
    rmin >= row.emin && rmax <= row.emax
  }

  /** The `for encoding, (phred, (emin, emax)) in rows` loop with its two
      parallel lists. */
  function EncodingsFrom(rows: seq<EncodingRow>, rmin: int, rmax: int): (r: (seq<string>, seq<int>))
    ensures |r.0| == |r.1| <= |rows|
  {
    if rows == [] then ([], [])
    else
      var rest := EncodingsFrom(rows[1..], rmin, rmax);
      if Covers(rows[0], rmin, rmax) then ([rows[0].name] + rest.0, [rows[0].phred] + rest.1) else rest
  }

  /** Some row with this name and phred covers `[rmin, rmax]`. */
  predicate CoveringRow(rows: seq<EncodingRow>, name: string, phred: int, rmin: int, rmax: int) {
    exists i :: 0 <= i < |rows| && rows[i].name == name && rows[i].phred == phred && Covers(rows[i], rmin, rmax)
  }

  /** Each listed name comes, with its phred at the same position, from a
      row whose range covers `[rmin, rmax]`. */
  lemma {:induction false} EncodingsFromRows(rows: seq<EncodingRow>, rmin: int, rmax: int)
    ensures forall k :: 0 <= k < |EncodingsFrom(rows, rmin, rmax).0| ==>
      CoveringRow(rows, EncodingsFrom(rows, rmin, rmax).0[k], EncodingsFrom(rows, rmin, rmax).1[k], rmin, rmax)
  {
    if rows != [] {
      var tail := rows[1..];
      EncodingsFromRows(tail, rmin, rmax);
      var rest := EncodingsFrom(tail, rmin, rmax);
      var r := EncodingsFrom(rows, rmin, rmax);
      forall k | 0 <= k < |r.0| ensures CoveringRow(rows, r.0[k], r.1[k], rmin, rmax) {
        var j := if Covers(rows[0], rmin, rmax) then k - 1 else k;
        if Covers(rows[0], rmin, rmax) && k == 0 {
          assert rows[0].name == r.0[0] && rows[0].phred == r.1[0];
        } else {
          assert r.0[k] == rest.0[j] && r.1[k] == rest.1[j];
          assert CoveringRow(tail, rest.0[j], rest.1[j], rmin, rmax);
          var i :| 0 <= i < |tail| && tail[i].name == rest.0[j] && tail[i].phred == rest.1[j] && Covers(tail[i], rmin, rmax);
          assert tail[i] == rows[i + 1];
        }
      }
    }
  }

  /** `get_encodings_in_range` */
  function EncodingsInRange(rmin: int, rmax: int): (seq<string>, seq<int>) {
    EncodingsFrom(Ranges, rmin, rmax)
  }

  /** A row's name is listed iff the row covers the range. */
  lemma {:induction false} EncodingsFromNames(rows: seq<EncodingRow>, rmin: int, rmax: int)
    requires forall i, j :: 0 <= i < j < |rows| ==> rows[i].name != rows[j].name
    ensures forall i :: 0 <= i < |rows| ==> (rows[i].name in EncodingsFrom(rows, rmin, rmax).0 <==> Covers(rows[i], rmin, rmax))
  {
    if rows != [] {
      EncodingsFromNames(rows[1..], rmin, rmax);
      assert forall i :: 1 <= i < |rows| ==> rows[i] == rows[1..][i - 1];
      var rest := EncodingsFrom(rows[1..], rmin, rmax).0;
      EncodingsFromRows(rows[1..], rmin, rmax);
      forall k | 0 <= k < |rest| ensures rest[k] != rows[0].name {
        assert CoveringRow(rows[1..], rest[k], EncodingsFrom(rows[1..], rmin, rmax).1[k], rmin, rmax);
        var i :| 0 <= i < |rows[1..]| && rows[1..][i].name == rest[k] && rows[1..][i].phred == EncodingsFrom(rows[1..], rmin, rmax).1[k] && Covers(rows[1..][i], rmin, rmax);
        assert rows[1..][i] == rows[i + 1];
      }
    }
  }

  /** The encodings of a range are exactly the listed ones whose range
      contains it, each with the phred of its row. */
  lemma EncodingsInRangeSpec(rmin: int, rmax: int)
    ensures forall i :: 0 <= i < |Ranges| ==> (Ranges[i].name in EncodingsInRange(rmin, rmax).0 <==> Covers(Ranges[i], rmin, rmax))
  {
    EncodingsFromNames(Ranges, rmin, rmax);
  }

  /** Widening the range never adds an encoding. */
  lemma EncodingsAntiMonotone(rmin: int, rmax: int, wmin: int, wmax: int)
    requires wmin <= rmin && rmax <= wmax
    ensures forall e :: e in EncodingsInRange(wmin, wmax).0 ==> e in EncodingsInRange(rmin, rmax).0
  {
    EncodingsInRangeSpec(rmin, rmax);
    EncodingsInRangeSpec(wmin, wmax);
    EncodingsFromRows(Ranges, wmin, wmax);
    forall e | e in EncodingsInRange(wmin, wmax).0 ensures e in EncodingsInRange(rmin, rmax).0 {
      var es := EncodingsInRange(wmin, wmax);
      var k :| 0 <= k < |es.0| && es.0[k] == e;
      assert CoveringRow(Ranges, es.0[k], es.1[k], wmin, wmax);
      var i :| 0 <= i < |Ranges| && Ranges[i].name == e && Ranges[i].phred == es.1[k] && Covers(Ranges[i], wmin, wmax);
    }
  }

  /** The range of Sanger qualities fits two encodings; one more code point
      at the top leaves only Illumina-1.8. */
  lemma EncodingsExamples()
    ensures EncodingsInRange(33, 73) == (["Sanger", "Illumina-1.8"], [33, 33])
    ensures EncodingsInRange(33, 74) == (["Illumina-1.8"], [33])
  {
    var r1, r2, r3, r4 := Ranges[1..], Ranges[2..], Ranges[3..], Ranges[4..];
    assert r4[0] == Ranges[4] && r4[1..] == [];
    assert r3[0] == Ranges[3] && r3[1..] == r4;
    assert r2[0] == Ranges[2] && r2[1..] == r3;
    assert r1[0] == Ranges[1] && r1[1..] == r2;
    assert EncodingsFrom(r4, 33, 73) == ([], []) && EncodingsFrom(r4, 33, 74) == ([], []);
    assert EncodingsFrom(r3, 33, 73) == ([], []) && EncodingsFrom(r3, 33, 74) == ([], []);
    assert EncodingsFrom(r2, 33, 73) == ([], []) && EncodingsFrom(r2, 33, 74) == ([], []);
    assert ["Illumina-1.8"] + [] == ["Illumina-1.8"] && [33] + [] == [33];
    assert EncodingsFrom(r1, 33, 73) == (["Illumina-1.8"], [33]) && EncodingsFrom(r1, 33, 74) == (["Illumina-1.8"], [33]);
    assert ["Sanger"] + ["Illumina-1.8"] == ["Sanger", "Illumina-1.8"] && [33] + [33] == [33, 33];
  }

  // --------------------------------------------------------- read scan

  /** The running values of `main`'s line loop. */
  datatype ScanState = ScanState(gmin: int, gmax: int, encoding: seq<string>, phred: seq<int>, chars: nat, maxReadLength: nat)

  /** `gmin, gmax = 99, 0`, no encoding yet, no characters counted. */
  const StartState := ScanState(99, 0, [], [], 0, 0)

  /** `(i + 1) % 4 == 0`: the fourth line of a record, the qualities. */
  predicate IsQualityLine(i: nat) {
    (i + 1) % 4 == 0
  }

  /** `(i + 3) % 4 == 0`: the second line of a record, the bases. */
  predicate IsSequenceLine(i: nat) {
    (i + 3) % 4 == 0
  }

  /** A quality line (stripped): the bounds widen to take in its range, and the
      encodings are recomputed only when they do. */
  function QualityStep(st: ScanState, line: string): Result<ScanState> {
    match QualRange(line)
    case Err(e) => Err(e)
    case Ok((lmin, lmax)) =>
      if lmin < st.gmin || lmax > st.gmax then
        var gmin := if lmin < st.gmin then lmin else st.gmin;
        var gmax := if lmax > st.gmax then lmax else st.gmax;
        var es := EncodingsInRange(gmin, gmax);
        Ok(st.(gmin := gmin, gmax := gmax, encoding := es.0, phred := es.1))
      else Ok(st)
  }

  /** A sequence line whose stripped length is `n`: the length is counted and may
      raise the maximum read length. */
  function SequenceStep(st: ScanState, n: nat): ScanState {
    st.(chars := st.chars + n, maxReadLength := if n > st.maxReadLength then n else st.maxReadLength)
  }

  /** The body of the loop for line `i`, stripped. */
  function ScanLine(st: ScanState, i: nat, line: string, skipEncoding: bool): Result<ScanState> {
    var q := if IsQualityLine(i) && !skipEncoding then QualityStep(st, line) else Ok(st);
    match q
    case Err(e) => Err(e)
    case Ok(s) => Ok(if IsSequenceLine(i) then SequenceStep(s, |line|) else s)
  }

  /** The state after the first `n` lines; the scan sees each line as
      `line.strip()` gives it. */
  function Scan(stripped: seq<string>, n: nat, skipEncoding: bool): Result<ScanState>
    requires n <= |stripped|
  {
    if n == 0 then Ok(StartState)
    else match Scan(stripped, n - 1, skipEncoding)
      case Err(e) => Err(e)
      case Ok(st) => ScanLine(st, n - 1, stripped[n - 1], skipEncoding)
  }

  /** The state after `n` lines is the state after `n - 1` lines with line
      `n - 1` applied. */
  lemma ScanStep(stripped: seq<string>, n: nat, skipEncoding: bool)
    requires 0 < n <= |stripped| && Scan(stripped, n, skipEncoding).Ok?
    ensures Scan(stripped, n - 1, skipEncoding).Ok?
    ensures ScanLine(Scan(stripped, n - 1, skipEncoding).value, n - 1, stripped[n - 1], skipEncoding) == Scan(stripped, n, skipEncoding)
  {
  }

  /** A quality line leaves the counts alone and only widens the bounds,
      to take in its range; the encodings follow the bounds whenever they
      move. */
  lemma QualityStepFacts(st: ScanState, line: string)
    requires QualityStep(st, line).Ok?
    ensures var s := QualityStep(st, line).value; var q := QualRange(line).value;
      && s.chars == st.chars && s.maxReadLength == st.maxReadLength
      && s.gmin <= st.gmin && s.gmax >= st.gmax && s.gmin <= q.0 && q.1 <= s.gmax
      && (s == st || (s.gmin <= s.gmax && (s.encoding, s.phred) == EncodingsInRange(s.gmin, s.gmax)))
  {
  }

  /** The encoding lists are empty until a bound widens, and afterwards are
      those of the current bounds; with `-e` they stay empty. */
  predicate Consistent(st: ScanState, skipEncoding: bool) {
    || (st.gmin == 99 && st.gmax == 0 && st.encoding == [] && st.phred == [])
    || (!skipEncoding && st.gmin <= st.gmax && (st.encoding, st.phred) == EncodingsInRange(st.gmin, st.gmax))
  }

  lemma {:induction false} ScanConsistent(stripped: seq<string>, n: nat, skipEncoding: bool)
    requires n <= |stripped| && Scan(stripped, n, skipEncoding).Ok?
    ensures Consistent(Scan(stripped, n, skipEncoding).value, skipEncoding)
  {
    if n > 0 {
      ScanStep(stripped, n, skipEncoding);
      ScanConsistent(stripped, n - 1, skipEncoding);
      var prev := Scan(stripped, n - 1, skipEncoding).value;
      if IsQualityLine(n - 1) && !skipEncoding {
        QualityStepFacts(prev, stripped[n - 1]);
      }
    }
  }

  /** The scan fails exactly when a quality line it reads strips to
      nothing, and then with ValueError. */
  lemma {:induction false} ScanOk(stripped: seq<string>, n: nat, skipEncoding: bool)
    requires n <= |stripped|
    ensures Scan(stripped, n, skipEncoding).Ok? <==>
      skipEncoding || forall i :: 0 <= i < n && IsQualityLine(i) ==> stripped[i] != []
    ensures Scan(stripped, n, skipEncoding).Err? ==> Scan(stripped, n, skipEncoding).error == ValueError
  {
    if n > 0 {
      ScanOk(stripped, n - 1, skipEncoding);
    }
  }

  /** The bounds only widen, from (99, 0), and hold every quality character
      read. */
  lemma {:induction false} ScanBounds(stripped: seq<string>, n: nat)
    requires n <= |stripped| && Scan(stripped, n, false).Ok?
    ensures Scan(stripped, n, false).value.gmin <= 99 && Scan(stripped, n, false).value.gmax >= 0
    ensures forall i :: 0 <= i < n && IsQualityLine(i) ==> forall c :: c in stripped[i] ==>
      Scan(stripped, n, false).value.gmin <= c as int <= Scan(stripped, n, false).value.gmax
  {
    if n > 0 {
      ScanStep(stripped, n, false);
      ScanBounds(stripped, n - 1);
      var prev := Scan(stripped, n - 1, false).value;
      var st := Scan(stripped, n, false).value;
      if IsQualityLine(n - 1) {
        QualityStepFacts(prev, stripped[n - 1]);
        var q := stripped[n - 1];
        QualRangeSpec(q);
        forall c | c in q ensures st.gmin <= c as int <= st.gmax {
          var k :| 0 <= k < |q| && q[k] == c;
        }
      }
    }
  }

  /** `chars` and `max_read_length` over the sequence stripped: the maximum is
      at least every stripped length, is 0 or one of them, and never
      exceeds the total. */
  lemma {:induction false} ScanLengths(stripped: seq<string>, n: nat, skipEncoding: bool)
    requires n <= |stripped| && Scan(stripped, n, skipEncoding).Ok?
    ensures var st := Scan(stripped, n, skipEncoding).value;
      && st.maxReadLength <= st.chars
      && (forall i :: 0 <= i < n && IsSequenceLine(i) ==> |stripped[i]| <= st.maxReadLength)
      && (st.maxReadLength == 0 || exists i :: 0 <= i < n && IsSequenceLine(i) && |stripped[i]| == st.maxReadLength)
  {
    if n > 0 {
      ScanStep(stripped, n, skipEncoding);
      ScanLengths(stripped, n - 1, skipEncoding);
      var prev := Scan(stripped, n - 1, skipEncoding).value;
      var st := Scan(stripped, n, skipEncoding).value;
      var len := |stripped[n - 1]|;
      ScanLineLengths(prev, n - 1, stripped[n - 1], skipEncoding);
      assert st.maxReadLength <= st.chars;
      forall i | 0 <= i < n && IsSequenceLine(i) ensures |stripped[i]| <= st.maxReadLength {
        if i < n - 1 {
          assert |stripped[i]| <= prev.maxReadLength;
        }
      }
      if IsSequenceLine(n - 1) && len > prev.maxReadLength {
        assert |stripped[n - 1]| == st.maxReadLength;
      } else if prev.maxReadLength != 0 {
        var i :| 0 <= i < n - 1 && IsSequenceLine(i) && |stripped[i]| == prev.maxReadLength;
        assert |stripped[i]| == st.maxReadLength;
      }
    }
  }

  /** A line changes the counts only when it is a sequence line. */
  lemma ScanLineLengths(st: ScanState, i: nat, line: string, skipEncoding: bool)
    requires ScanLine(st, i, line, skipEncoding).Ok?
    ensures var len := |line|; var s := ScanLine(st, i, line, skipEncoding).value;
      && s.chars == st.chars + (if IsSequenceLine(i) then len else 0)
      && s.maxReadLength == (if IsSequenceLine(i) && len > st.maxReadLength then len else st.maxReadLength)
  {
    if IsQualityLine(i) && !skipEncoding {
      QualityStepFacts(st, line);
    }
  }

  // ------------------------------------------------------------- outputs

  /** What the encoding and phred files receive: the sets of candidates
      when there are more than one, or "None". */
  datatype EncodingGuess = NoGuess | Guessed(encodings: set<string>, phreds: set<int>)

  function GuessOf(st: ScanState): EncodingGuess {
    if |st.encoding| > 1 then
      Guessed(set k | 0 <= k < |st.encoding| :: st.encoding[k], set k | 0 <= k < |st.phred| :: st.phred[k])
    else NoGuess
  }

  /** A single candidate encoding is reported as "None", as no candidate
      is: the Illumina-1.8 range alone gives no guess. */
  lemma SingleCandidateIsNone()
    ensures GuessOf(ScanState(33, 74, EncodingsInRange(33, 74).0, EncodingsInRange(33, 74).1, 0, 0)) == NoGuess
  {
    EncodingsExamples();
  }

  datatype Outcome =
    | Corrupt
    | Checked(encoding: EncodingGuess, coverage: real, passes: bool, maxReadLength: nat)

  /** Every line as `line.strip()` returns it. */
  function StripAll(lines: seq<string>): (r: seq<string>)
    ensures |r| == |lines|
    ensures forall i :: 0 <= i < |lines| ==> r[i] == Strip(lines[i])
  {
    seq(|lines|, i requires 0 <= i < |lines| => Strip(lines[i]))
  }

  /** `main` over the chained lines of the pair files. `eof` says that the
      reader raised EOFError after them; other exceptions are not caught. */
  function IntegrityOf(lines: seq<string>, eof: bool, gsize: real, minimumCoverage: real, opts: string): Result<Outcome> {
    match Scan(StripAll(lines), |lines|, Contains(opts, "-e"))
    case Err(e) => Err(e)
    case Ok(st) =>
      if eof then Ok(Corrupt)
      else if gsize == 0.0 then Err(ZeroDivisionError)
      else
        var cov := Round2(st.chars as real / (gsize * 1000000.0));
        Ok(Checked(GuessOf(st), cov, cov >= minimumCoverage, st.maxReadLength))
  }

  /** The five output files, in the order encoding, phred, coverage,
      report, maximum length. A guess with several candidates is written
      as the comma-joined set; the order in which the set is iterated is
      the parameter `joinNames` (and `joinPhreds`). */
  function EncodingFile(o: Outcome, joinNames: set<string> -> string): string {
    match o
    case Corrupt => "corrupt"
    case Checked(NoGuess, _, _, _) => "None"
    case Checked(Guessed(names, _), _, _, _) => joinNames(names)
  }

  function PhredFile(o: Outcome, joinPhreds: set<int> -> string): string {
    match o
    case Corrupt => "corrupt"
    case Checked(NoGuess, _, _, _) => "None"
    case Checked(Guessed(_, phreds), _, _, _) => joinPhreds(phreds)
  }

  function CoverageFile(o: Outcome, showReal: real -> string): string {
    match o
    case Corrupt => "corrupt"
    case Checked(_, cov, passes, _) => if passes then showReal(cov) else "fail"
  }

  function ReportLine(fastqId: string, o: Outcome, showReal: real -> string): string {
    match o
    case Corrupt => "corrupt"
    case Checked(_, cov, passes, _) => fastqId + "," + showReal(cov) + "," + (if passes then "PASS" else "FAIL") + "\n"
  }

  function MaxLenFile(o: Outcome): string {
    match o
    case Corrupt => "corrupt"
    case Checked(_, _, _, m) => NatToString(m)
  }

  /** With `-e` the encoding step never runs and no encoding is guessed. */
  lemma SkipEncodingGuessesNone(lines: seq<string>, eof: bool, gsize: real, minimumCoverage: real, opts: string)
    requires Contains(opts, "-e") && IntegrityOf(lines, eof, gsize, minimumCoverage, opts).Ok?
    ensures IntegrityOf(lines, eof, gsize, minimumCoverage, opts).value.Checked? ==>
      IntegrityOf(lines, eof, gsize, minimumCoverage, opts).value.encoding == NoGuess
  {
    ScanConsistent(StripAll(lines), |lines|, true);
  }

  /** On EOFError every one of the five files receives "corrupt".
      Otherwise the encoding and phred files hold the candidate sets when
      the scan ended with more than one candidate, and "None" when it ended
      with none or one; the coverage check passes iff the rounded estimate reaches
      the minimum, the coverage file then holds the estimate, otherwise
      "fail"; the report line ends in PASS or FAIL accordingly and the
      length file holds the longest sequence line. */
  lemma OutputsSpec(fastqId: string, lines: seq<string>, eof: bool, gsize: real, minimumCoverage: real, opts: string,
                    showReal: real -> string, joinNames: set<string> -> string, joinPhreds: set<int> -> string)
    requires IntegrityOf(lines, eof, gsize, minimumCoverage, opts).Ok?
    ensures var o := IntegrityOf(lines, eof, gsize, minimumCoverage, opts).value;
      && (eof <==> o.Corrupt?)
      && (o.Corrupt? ==>
            && EncodingFile(o, joinNames) == "corrupt" && PhredFile(o, joinPhreds) == "corrupt"
            && CoverageFile(o, showReal) == "corrupt" && ReportLine(fastqId, o, showReal) == "corrupt"
            && MaxLenFile(o) == "corrupt")
    ensures var o := IntegrityOf(lines, eof, gsize, minimumCoverage, opts).value;
      var st := Scan(StripAll(lines), |lines|, Contains(opts, "-e")).value;
      o.Checked? ==>
        && (|st.encoding| <= 1 ==> EncodingFile(o, joinNames) == "None" && PhredFile(o, joinPhreds) == "None")
        && (|st.encoding| > 1 ==>
              && EncodingFile(o, joinNames) == joinNames(set k | 0 <= k < |st.encoding| :: st.encoding[k])
              && PhredFile(o, joinPhreds) == joinPhreds(set k | 0 <= k < |st.phred| :: st.phred[k]))
        && MaxLenFile(o) == NatToString(st.maxReadLength)
    ensures var o := IntegrityOf(lines, eof, gsize, minimumCoverage, opts).value;
      o.Checked? ==>
        && (o.passes <==> o.coverage >= minimumCoverage)
        && CoverageFile(o, showReal) == (if o.passes then showReal(o.coverage) else "fail")
        && ReportLine(fastqId, o, showReal) == fastqId + "," + showReal(o.coverage) + "," + (if o.passes then "PASS" else "FAIL") + "\n"
  {
  }

  /** A blank quality line raises ValueError, unless `-e` skips the
      encoding step; a zero genome size raises ZeroDivisionError once the
      files were read to their end. */
  lemma IntegrityErrors(lines: seq<string>, eof: bool, gsize: real, minimumCoverage: real, opts: string)
    ensures var scanOk := Contains(opts, "-e") || forall i :: 0 <= i < |lines| && IsQualityLine(i) ==> !IsBlank(lines[i]);
      && (IntegrityOf(lines, eof, gsize, minimumCoverage, opts) == Err(ValueError) <==> !scanOk)
      && (IntegrityOf(lines, eof, gsize, minimumCoverage, opts) == Err(ZeroDivisionError) <==> scanOk && !eof && gsize == 0.0)
  {
    var stripped := StripAll(lines);
    ScanOk(stripped, |lines|, Contains(opts, "-e"));
    forall i | 0 <= i < |lines| ensures stripped[i] == [] <==> IsBlank(lines[i]) {
      StripBlank(lines[i]);
    }
  }

  /** The coverage estimate is the character count per genome base,
      rounded to two places. */
  lemma CoverageEstimate(lines: seq<string>, gsize: real, minimumCoverage: real, opts: string)
    requires gsize > 0.0 && IntegrityOf(lines, false, gsize, minimumCoverage, opts).Ok?
    ensures var o := IntegrityOf(lines, false, gsize, minimumCoverage, opts).value;
      var chars := Scan(StripAll(lines), |lines|, Contains(opts, "-e")).value.chars;
      o.Checked? && -0.005 <= o.coverage - chars as real / (gsize * 1000000.0) <= 0.005
  {
  }

  /** `main`'s line loop over the stripped lines: the quality step on every
      fourth line unless `-e` was given, the length step on every second
      line of a record. */
  method ScanLines(stripped: seq<string>, skipEncoding: bool) returns (r: Result<ScanState>)
    ensures r == Scan(stripped, |stripped|, skipEncoding)
  {
    var gmin, gmax := 99, 0;
    var encoding: seq<string>, phred: seq<int> := [], [];
    var chars: nat := 0;
    var maxReadLength: nat := 0;
    var i := 0;
    while i < |stripped|
      invariant i <= |stripped|
      invariant Scan(stripped, i, skipEncoding) == Ok(ScanState(gmin, gmax, encoding, phred, chars, maxReadLength))
    {
      var line := stripped[i];
      ghost var before := ScanState(gmin, gmax, encoding, phred, chars, maxReadLength);
      if (i + 1) % 4 == 0 && !skipEncoding {
        var range := QualRange(line);
        if range.Err? {
          ScanStops(stripped, i + 1, skipEncoding);
          return Err(range.error);
        }
        var (lmin, lmax) := range.value;
        if lmin < gmin || lmax > gmax {
          gmin, gmax := if lmin < gmin then lmin else gmin, if lmax > gmax then lmax else gmax;
          encoding, phred := EncodingsInRange(gmin, gmax).0, EncodingsInRange(gmin, gmax).1;
        }
        assert QualityStep(before, line) == Ok(ScanState(gmin, gmax, encoding, phred, chars, maxReadLength));
      }
      ghost var quality := ScanState(gmin, gmax, encoding, phred, chars, maxReadLength);
      if (i + 3) % 4 == 0 {
        var readLen := |line|;
        chars := chars + readLen;
        if readLen > maxReadLength {
          maxReadLength := readLen;
        }
        assert SequenceStep(quality, readLen) == ScanState(gmin, gmax, encoding, phred, chars, maxReadLength);
      }
      assert ScanLine(before, i, line, skipEncoding) == Ok(ScanState(gmin, gmax, encoding, phred, chars, maxReadLength));
      i := i + 1;
    }
    r := Ok(ScanState(gmin, gmax, encoding, phred, chars, maxReadLength));
  }

  /** `main`: the scan, then EOFError turning every output into "corrupt",
      then the coverage estimate. */
  method IntegrityCoverage(lines: seq<string>, eof: bool, gsize: real, minimumCoverage: real, opts: string)
    returns (r: Result<Outcome>)
    ensures r == IntegrityOf(lines, eof, gsize, minimumCoverage, opts)
  {
    var skipEncoding := Contains(opts, "-e");
    var scan := ScanLines(StripAll(lines), skipEncoding);
    if scan.Err? {
      return Err(scan.error);
    }
    if eof {
      return Ok(Corrupt);
    }
    if gsize == 0.0 {
      return Err(ZeroDivisionError);
    }
    var st := scan.value;
    var cov := Round2(st.chars as real / (gsize * 1000000.0));
    r := Ok(Checked(GuessOf(st), cov, cov >= minimumCoverage, st.maxReadLength));
  }

  /** Once a line raises, the scan of all lines raises the same error. */
  lemma {:induction false} ScanStops(stripped: seq<string>, n: nat, skipEncoding: bool)
    requires 0 < n <= |stripped| && Scan(stripped, n, skipEncoding).Err?
    ensures Scan(stripped, |stripped|, skipEncoding) == Scan(stripped, n, skipEncoding)
    decreases |stripped| - n
  {
    if n < |stripped| {
      ScanStops(stripped, n + 1, skipEncoding);
    }
  }
}
