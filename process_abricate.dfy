/** `process_abricate.py`: the Abricate hit tables read into a storage
    keyed by consecutive integers, the six-operator comparison, the AND/OR
    filter with its database restriction and field projection, and the
    plot data grouped by database with the contig taken from the
    `_NODE_<n>_` part of the reference. */
module ProcessAbricate {
  import opened Wrappers
  import opened Strings
  import opened Numbers
  import opened Lists
  import opened OrderedDicts

  // ---------------------------------------------------------------- values

  /** The values a stored entry holds, and filters compare against: text,
      numbers (Python compares `int` and `float` by value), the
      `seq_range` pair, and None. */
  datatype Value = StrV(s: string) | NumV(r: real) | PairV(a: int, b: int) | NoneV

  /** One hit line. */
  datatype Entry = Entry(
    infile: string, reference: string, seqRange: (int, int), gene: string,
    accession: Option<string>, database: string, coverage: Option<real>, identity: Option<real>)

  function OptStr(o: Option<string>): Value {
    match o
    case Some(s) => StrV(s)
    case None => NoneV
  }

  function OptNum(o: Option<real>): Value {
    match o
    case Some(r) => NumV(r)
    case None => NoneV
  }

  /** The entry as the dictionary the parser stores, keys in insertion
      order. */
  function Items(e: Entry): seq<(string, Value)> {
    [("infile", StrV(e.infile)), ("reference", StrV(e.reference)),
     ("seq_range", PairV(e.seqRange.0, e.seqRange.1)), ("gene", StrV(e.gene)),
     ("accession", OptStr(e.accession)), ("database", StrV(e.database)),
     ("coverage", OptNum(e.coverage)), ("identity", OptNum(e.identity))]
  }

  /** `dic[k]` on a dictionary given by its items. */
  function Lookup(items: seq<(string, Value)>, k: string): (r: Result<Value>)
    ensures r.Ok? <==> exists i :: 0 <= i < |items| && items[i].0 == k
    ensures r.Err? ==> r.error == KeyError
  {
    if items == [] then Err(KeyError)
    else if items[0].0 == k then Ok(items[0].1)
    else
      var r := Lookup(items[1..], k);
      assert forall i :: 1 <= i < |items| ==> items[i] == items[1..][i - 1];
      r
  }

  // ------------------------------------------------------------ _test_truth

  /** Python's ordering of text: by code point, a proper prefix first. */
  predicate StrLess(a: string, b: string) {
    if a == [] then b != []
    else if b == [] then false
    else if a[0] != b[0] then a[0] < b[0]
    else StrLess(a[1..], b[1..])
  }

  /** The ordering is strict and total: exactly one of `a < b`, `a == b`,
      `b < a` holds. */
  lemma {:induction false} StrLessTrichotomy(a: string, b: string)
    ensures StrLess(a, b) || a == b || StrLess(b, a)
    ensures !(StrLess(a, b) && StrLess(b, a))
    ensures !(StrLess(a, b) && a == b)
  {
    if a != [] && b != [] && a[0] == b[0] {
      StrLessTrichotomy(a[1..], b[1..]);
      if a[1..] == b[1..] {
        assert a == [a[0]] + a[1..] && b == [b[0]] + b[1..];
      }
    }
  }

  /** `x < y`, TypeError across kinds or on None. */
  function Less(x: Value, y: Value): Result<bool> {
    match (x, y)
    case (NumV(p), NumV(q)) => Ok(p < q)
    case (StrV(s), StrV(t)) => Ok(StrLess(s, t))
    case (PairV(a, b), PairV(c, d)) => Ok(a < c || (a == c && b < d))
    case _ => Err(TypeError)
  }

  /** `x <= y` */
  function LessEq(x: Value, y: Value): Result<bool> {
    match Less(x, y)
    case Ok(lt) => Ok(lt || x == y)
    case Err(e) => Err(e)
  }

  predicate IsOperator(op: string) {
    op in [">", "<", ">=", "<=", "==", "!="]
  }

  /** `_test_truth(x, op, y)`: the operator table lookup first, then the
      comparison; `==` and `!=` compare any two values. */
  function TestTruth(x: Value, op: string, y: Value): Result<bool> {
    if op == ">" then Less(y, x)
    else if op == "<" then Less(x, y)
    else if op == ">=" then LessEq(y, x)
    else if op == "<=" then LessEq(x, y)
    else if op == "==" then Ok(x == y)
    else if op == "!=" then Ok(x != y)
    else Err(KeyError)
  }

  predicate Comparable(x: Value, y: Value) {
    (x.NumV? && y.NumV?) || (x.StrV? && y.StrV?) || (x.PairV? && y.PairV?)
  }

  /** KeyError exactly for an operator outside the six; `==`/`!=` never
      raise and are each other's negation; the orderings raise TypeError
      exactly on incomparable values, and on numbers they are the
      comparisons of the numbers. */
  lemma TestTruthSpec(x: Value, op: string, y: Value)
    ensures TestTruth(x, op, y) == Err(KeyError) <==> !IsOperator(op)
    ensures TestTruth(x, "==", y) == Ok(x == y) && TestTruth(x, "!=", y) == Ok(!(x == y))
    ensures op in [">", "<", ">=", "<="] ==> (TestTruth(x, op, y) == Err(TypeError) <==> !Comparable(x, y))
    ensures x.NumV? && y.NumV? ==>
      && TestTruth(x, ">", y) == Ok(x.r > y.r) && TestTruth(x, "<", y) == Ok(x.r < y.r)
      && TestTruth(x, ">=", y) == Ok(x.r >= y.r) && TestTruth(x, "<=", y) == Ok(x.r <= y.r)
  {
  }

  /** On comparable values the orderings are total: `>` negates `<=`, `<`
      negates `>=`, and `>=` is `>` or `==`. */
  lemma TestTruthOrders(x: Value, y: Value)
    requires Comparable(x, y)
    ensures TestTruth(x, ">", y).Ok? && TestTruth(x, "<", y).Ok? && TestTruth(x, ">=", y).Ok? && TestTruth(x, "<=", y).Ok?
    ensures TestTruth(x, ">", y).value == !TestTruth(x, "<=", y).value
    ensures TestTruth(x, "<", y).value == !TestTruth(x, ">=", y).value
    ensures TestTruth(x, ">=", y).value == (TestTruth(x, ">", y).value || x == y)
  {
    if x.StrV? && y.StrV? {
      StrLessTrichotomy(x.s, y.s);
    }
  }

  // ---------------------------------------------------------------- parser

  /** A header, comment or blank line. */
  predicate Skipped(line: string) {
    StartsWith(line, "#") || Strip(line) == []
  }

  /** One line of `_parser`: None for a skipped line, else the entry from
      the tab-separated fields of the stripped line. Coverage (field 8) and
      identity (field 9) fall back to None when not numeric and the
      accession (field 11) when absent; anything else missing or not an
      integer raises. */
  function LineEntry(line: string): Result<Option<Entry>> {
    if Skipped(line) then Ok(None)
    else
      var fields := SplitOn(Strip(line), '\t');
      if |fields| <= 9 then Err(IndexError)
      else
        var coverage := ParseReal(fields[8]);
        var identity := ParseReal(fields[9]);
        var accession := if |fields| > 11 then Some(fields[11]) else None;
        match ParseInt(fields[2])
        case None => Err(ValueError)
        case Some(lo) =>
          match ParseInt(fields[3])
          case None => Err(ValueError)
          case Some(hi) =>
            if |fields| <= 10 then Err(IndexError)
            else Ok(Some(Entry(fields[0], fields[1], (lo, hi), fields[4], accession, fields[10], coverage, identity)))
  }

  /** A line is dropped iff it is skipped; a kept line gives an entry iff
      it has at least eleven fields with integers in fields 2 and 3, and
      the entry holds the fields named by the storage keys. */
  lemma LineEntrySpec(line: string)
    ensures LineEntry(line) == Ok(None) <==> Skipped(line)
    ensures !Skipped(line) ==>
      var fields := SplitOn(Strip(line), '\t');
      && (LineEntry(line).Ok? <==> |fields| >= 11 && ParseInt(fields[2]).Some? && ParseInt(fields[3]).Some?)
      && (LineEntry(line).Ok? ==>
            var e := LineEntry(line).value.value;
            && e.infile == fields[0] && e.reference == fields[1] && e.gene == fields[4] && e.database == fields[10]
            && e.seqRange == (ParseInt(fields[2]).value, ParseInt(fields[3]).value)
            && e.coverage == ParseReal(fields[8]) && e.identity == ParseReal(fields[9])
            && (e.accession.None? <==> |fields| == 11)
            && (|fields| > 11 ==> e.accession == Some(fields[11])))
  {
  }

  /** The entries a sequence of lines adds, and the error that stopped it. */
  function ParseLinesWith(lines: seq<string>, entry: string -> Result<Option<Entry>>): (seq<Entry>, Option<Error>) {
    if lines == [] then ([], None)
    else
      var n := |lines| - 1;
      var (es, err) := ParseLinesWith(lines[..n], entry);
      if err.Some? then (es, err)
      else match entry(lines[n])
        case Err(e) => (es, Some(e))
        case Ok(None) => (es, None)
        case Ok(Some(x)) => (es + [x], None)
  }

  /** `_parser` on one file's lines. */
  function ParseLines(lines: seq<string>): (seq<Entry>, Option<Error>) {
    ParseLinesWith(lines, LineEntry)
  }

  /** Continuing with `ys` after `xs`: the parser state at the end of one
      file is where the next one starts. */
  function Continue(first: (seq<Entry>, Option<Error>), rest: (seq<Entry>, Option<Error>)): (seq<Entry>, Option<Error>) {
    if first.1.Some? then first else (first.0 + rest.0, rest.1)
  }

  lemma ParseLinesStep(lines: seq<string>, n: nat, entry: string -> Result<Option<Entry>>)
    requires n < |lines|
    ensures ParseLinesWith(lines[..n + 1], entry) ==
      Continue(ParseLinesWith(lines[..n], entry),
               match entry(lines[n]) case Err(e) => ([], Some(e)) case Ok(None) => ([], None) case Ok(Some(x)) => ([x], None))
  {
    assert lines[..n + 1][..n] == lines[..n];
    var es := ParseLinesWith(lines[..n], entry).0;
    assert es + [] == es;
  }

  /** Parsing a concatenation parses the first part, then the second with
      the entries continuing after the first part's. */
  lemma {:induction false} ParseLinesAppend(xs: seq<string>, ys: seq<string>, entry: string -> Result<Option<Entry>>)
    ensures ParseLinesWith(xs + ys, entry) == Continue(ParseLinesWith(xs, entry), ParseLinesWith(ys, entry))
    decreases |ys|
  {
    if ys == [] {
      assert xs + ys == xs;
      var es := ParseLinesWith(xs, entry).0;
      assert es + [] == es;
    } else {
      var m := |ys| - 1;
      assert (xs + ys)[..|xs + ys| - 1] == xs + ys[..m];
      assert (xs + ys)[|xs + ys| - 1] == ys[m];
      ParseLinesAppend(xs, ys[..m], entry);
      var p := ParseLinesWith(xs, entry);
      if p.1.None? {
        var q := ParseLinesWith(ys[..m], entry);
        match entry(ys[m])
        case Ok(Some(x)) =>
          assert p.0 + q.0 + [x] == p.0 + (q.0 + [x]);
        case _ =>
      }
    }
  }

  /** A comment or blank line anywhere changes nothing. */
  lemma SkippedLineIgnored(xs: seq<string>, line: string, ys: seq<string>)
    requires Skipped(line)
    ensures ParseLines(xs + [line] + ys) == ParseLines(xs + ys)
  {
    ParseLinesAppend(xs + [line], ys, LineEntry);
    ParseLinesAppend(xs, [line], LineEntry);
    ParseLinesAppend(xs, ys, LineEntry);
    assert [line][..0] == [];
    LineEntrySpec(line);
    var p := ParseLinesWith(xs, LineEntry);
    assert p.0 + [] == p.0;
  }

  /** The file parses without error iff every line does; then each kept
      line adds one entry. On an error, the entries before the failing line
      stay. */
  lemma {:induction false} ParseLinesErrors(lines: seq<string>, entry: string -> Result<Option<Entry>>)
    ensures ParseLinesWith(lines, entry).1.None? <==> forall i :: 0 <= i < |lines| ==> entry(lines[i]).Ok?
    ensures ParseLinesWith(lines, entry).1.Some? ==> exists i ::
      && 0 <= i < |lines| && entry(lines[i]) == Err(ParseLinesWith(lines, entry).1.value)
      && (forall j :: 0 <= j < i ==> entry(lines[j]).Ok?)
      && ParseLinesWith(lines, entry).0 == ParseLinesWith(lines[..i], entry).0
    ensures |ParseLinesWith(lines, entry).0| <= |lines|
  {
    if lines != [] {
      var n := |lines| - 1;
      ParseLinesErrors(lines[..n], entry);
      var p := ParseLinesWith(lines[..n], entry);
      assert lines[..n] == lines[..n];
      if p.1.Some? {
        var i :| 0 <= i < n && entry(lines[..n][i]) == Err(p.1.value)
          && (forall j :: 0 <= j < i ==> entry(lines[..n][j]).Ok?)
          && p.0 == ParseLinesWith(lines[..n][..i], entry).0;
        assert lines[..n][..i] == lines[..i];
        assert forall j :: 0 <= j <= i ==> lines[..n][j] == lines[j];
      } else if entry(lines[n]).Err? {
        assert forall j :: 0 <= j < n ==> entry(lines[..n][j]).Ok?;
        assert forall j :: 0 <= j < n ==> lines[..n][j] == lines[j];
      } else {
        assert forall j :: 0 <= j < n ==> lines[..n][j] == lines[j];
      }
    }
  }

  /** The files that exist, in order: a missing file (`None`) is skipped
      and the keys carry on across files. */
  function ParseFilesWith(files: seq<Option<seq<string>>>, entry: string -> Result<Option<Entry>>): (seq<Entry>, Option<Error>) {
    if files == [] then ([], None)
    else
      var n := |files| - 1;
      var before := ParseFilesWith(files[..n], entry);
      match files[n]
      case None => before
      case Some(lines) => Continue(before, ParseLinesWith(lines, entry))
  }

  /** `parse_files` */
  function ParseFiles(files: seq<Option<seq<string>>>): (seq<Entry>, Option<Error>) {
    ParseFilesWith(files, LineEntry)
  }

  /** Parsing the existing files one after another is parsing their lines
      as one file. */
  lemma {:induction false} ParseFilesConcat(files: seq<Option<seq<string>>>, entry: string -> Result<Option<Entry>>)
    ensures ParseFilesWith(files, entry) == ParseLinesWith(ExistingLines(files), entry)
  {
    if files != [] {
      var n := |files| - 1;
      ParseFilesConcat(files[..n], entry);
      assert files[..n] == files[..n];
      match files[n]
      case None =>
        assert ExistingLines(files[..n]) + [] == ExistingLines(files[..n]);
        assert ExistingLines(files) == ExistingLines(files[..n]);
      case Some(lines) =>
        ParseLinesAppend(ExistingLines(files[..n]), lines, entry);
    }
  }

  /** All lines of the existing files, in order. */
  function ExistingLines(files: seq<Option<seq<string>>>): seq<string> {
    if files == [] then []
    else
      var n := |files| - 1;
      ExistingLines(files[..n]) + (match files[n] case None => [] case Some(lines) => lines)
  }

  // ------------------------------------------------------------ iter_filter

  /** One custom filter `[key, op, value]`. */
  datatype Filter = Filter(key: string, op: string, value: Value)

  /** `self._test_truth(dic[f[0]], f[1], f[2])` */
  function FilterTest(e: Entry, f: Filter): Result<bool> {
    var v :- Lookup(Items(e), f.key);
    TestTruth(v, f.op, f.value)
  }

  /** The `flag` list of one entry. */
  function Flags(e: Entry, filters: seq<Filter>): Result<seq<bool>> {
    MapResult(filters, f => FilterTest(e, f))
  }

  /** `all(flag)` for "and", `any(flag)` for "or". */
  predicate Passes(flags: seq<bool>, behavior: string) {
    if behavior == "and" then forall i :: 0 <= i < |flags| ==> flags[i]
    else exists i :: 0 <= i < |flags| && flags[i]
  }

  /** Whether the entry is yielded: outside the listed databases (when
      some are listed) it is skipped before any filter is evaluated. */
  function Selected(e: Entry, filters: seq<Filter>, databases: seq<string>, behavior: string): Result<bool> {
    if databases != [] && e.database !in databases then Ok(false)
    else
      var flags :- Flags(e, filters);
      Ok(Passes(flags, behavior))
  }

  /** What is yielded for an entry: the whole record, or the items whose
      key is listed in `fields`, in the record's order. */
  function Project(e: Entry, fields: seq<string>): seq<(string, Value)> {
    if fields == [] then Items(e)
    else Lists.Filter(Items(e), (it: (string, Value)) => it.0 in fields)
  }

  /** The entries for which `sel` holds, each mapped by `proj`, in order;
      the first entry for which `sel` raises makes it all raise. */
  function SelectWith<A, R>(xs: seq<A>, sel: A -> Result<bool>, proj: A -> R): Result<seq<R>> {
    if xs == [] then Ok([])
    else
      var n := |xs| - 1;
      var before :- SelectWith(xs[..n], sel, proj);
      var keep :- sel(xs[n]);
      Ok(if keep then before + [proj(xs[n])] else before)
  }

  function Selector(filters: seq<Filter>, databases: seq<string>, behavior: string): Entry -> Result<bool> {
    e => Selected(e, filters, databases, behavior)
  }

  function Projector(fields: seq<string>): Entry -> seq<(string, Value)> {
    e => Project(e, fields)
  }

  /** `list(iter_filter(filters, databases, fields, filter_behavior))` over
      the stored entries. */
  function IterFilter(entries: seq<Entry>, filters: seq<Filter>, databases: seq<string>, fields: seq<string>, behavior: string): Result<seq<seq<(string, Value)>>> {
    if behavior != "and" && behavior != "or" then Err(ValueError)
    else SelectWith(entries, Selector(filters, databases, behavior), Projector(fields))
  }

  /** "and" keeps an entry iff every filter holds, "or" iff some filter
      holds; a filter that raises makes the whole call raise. */
  lemma SelectedSpec(e: Entry, filters: seq<Filter>, databases: seq<string>, behavior: string)
    requires behavior == "and" || behavior == "or"
    ensures databases != [] && e.database !in databases ==> Selected(e, filters, databases, behavior) == Ok(false)
    ensures !(databases != [] && e.database !in databases) ==>
      && (Selected(e, filters, databases, behavior).Ok? <==> forall i :: 0 <= i < |filters| ==> FilterTest(e, filters[i]).Ok?)
      && (Selected(e, filters, databases, behavior).Ok? ==>
            && (behavior == "and" ==> (Selected(e, filters, databases, behavior).value <==> forall i :: 0 <= i < |filters| ==> FilterTest(e, filters[i]) == Ok(true)))
            && (behavior == "or" ==> (Selected(e, filters, databases, behavior).value <==> exists i :: 0 <= i < |filters| && FilterTest(e, filters[i]) == Ok(true))))
  {
    if !(databases != [] && e.database !in databases) && Flags(e, filters).Ok? {
      var flags := Flags(e, filters).value;
      assert forall i :: 0 <= i < |filters| ==> flags[i] == FilterTest(e, filters[i]).value;
    }
  }

  /** With no filters, "and" yields every entry of the databases and "or"
      yields none. */
  lemma EmptyFilterList(e: Entry, databases: seq<string>)
    ensures Selected(e, [], databases, "and") == Ok(databases == [] || e.database in databases)
    ensures Selected(e, [], databases, "or") == Ok(false)
  {
  }

  /** With one filter, "and" and "or" agree. */
  lemma SingleFilterBehaviors(e: Entry, f: Filter, databases: seq<string>)
    ensures Selected(e, [f], databases, "and") == Selected(e, [f], databases, "or")
  {
    SelectedSpec(e, [f], databases, "and");
    SelectedSpec(e, [f], databases, "or");
  }

  /** `x => sel(x) == Ok(true)` */
  function Accepts<A>(sel: A -> Result<bool>): A -> bool {
    x => sel(x) == Ok(true)
  }

  /** `[f(x) for x in xs]` */
  function MapSeq<A, R>(xs: seq<A>, f: A -> R): (r: seq<R>)
    ensures |r| == |xs|
    ensures forall i :: 0 <= i < |xs| ==> r[i] == f(xs[i])
  {
    seq(|xs|, i requires 0 <= i < |xs| => f(xs[i]))
  }

  /** The selection succeeds iff `sel` does on every item, and then it is
      the kept items, mapped, in order. */
  lemma {:induction false} SelectWithSpec<A, R>(xs: seq<A>, sel: A -> Result<bool>, proj: A -> R)
    ensures SelectWith(xs, sel, proj).Ok? <==> forall i :: 0 <= i < |xs| ==> sel(xs[i]).Ok?
    ensures SelectWith(xs, sel, proj).Ok? ==> SelectWith(xs, sel, proj).value == MapSeq(Lists.Filter(xs, Accepts(sel)), proj)
    decreases |xs|
  {
    if xs != [] {
      var n := |xs| - 1;
      SelectWithSpec(xs[..n], sel, proj);
      assert forall i :: 0 <= i < n ==> xs[..n][i] == xs[i];
      if SelectWith(xs, sel, proj).Ok? {
        assert xs[..n + 1] == xs;
        FilterSnoc(xs, n, Accepts(sel));
        var kept := Lists.Filter(xs[..n], Accepts(sel));
        assert MapSeq(kept + [xs[n]], proj) == MapSeq(kept, proj) + [proj(xs[n])];
      }
    }
  }

  /** Any other behaviour raises ValueError. Otherwise the call succeeds
      iff every entry's selection does, and it yields, in storage order,
      the projection of every selected entry. */
  lemma IterFilterSpec(entries: seq<Entry>, filters: seq<Filter>, databases: seq<string>, fields: seq<string>, behavior: string)
    ensures behavior != "and" && behavior != "or" ==> IterFilter(entries, filters, databases, fields, behavior) == Err(ValueError)
    ensures behavior == "and" || behavior == "or" ==>
      && (IterFilter(entries, filters, databases, fields, behavior).Ok? <==> forall i :: 0 <= i < |entries| ==> Selected(entries[i], filters, databases, behavior).Ok?)
      && (IterFilter(entries, filters, databases, fields, behavior).Ok? ==>
            IterFilter(entries, filters, databases, fields, behavior).value ==
              MapSeq(Lists.Filter(entries, Accepts(Selector(filters, databases, behavior))), Projector(fields)))
  {
    SelectWithSpec(entries, Selector(filters, databases, behavior), Projector(fields));
  }

  /** Every yielded record comes from an entry that passed, which with a
      database list is one of those databases. */
  lemma IterFilterFrom(entries: seq<Entry>, filters: seq<Filter>, databases: seq<string>, fields: seq<string>, behavior: string, out: seq<seq<(string, Value)>>)
    requires IterFilter(entries, filters, databases, fields, behavior) == Ok(out)
    ensures forall k :: 0 <= k < |out| ==> YieldedFrom(out[k], entries, filters, databases, fields, behavior)
  {
    IterFilterSpec(entries, filters, databases, fields, behavior);
    var sel := Selector(filters, databases, behavior);
    var kept := Lists.Filter(entries, Accepts(sel));
    FilterMembers(entries, Accepts(sel));
    forall k | 0 <= k < |out| ensures YieldedFrom(out[k], entries, filters, databases, fields, behavior) {
      var e := kept[k];
      assert Accepts(sel)(e);
      assert Selected(e, filters, databases, behavior) == Ok(true);
      assert out[k] == Projector(fields)(e);
    }
  }

  /** The record is the projection of an entry that passed, of one of the
      databases when they are listed. */
  predicate YieldedFrom(rec: seq<(string, Value)>, entries: seq<Entry>, filters: seq<Filter>, databases: seq<string>, fields: seq<string>, behavior: string) {
    exists e ::
      && e in entries && Selected(e, filters, databases, behavior) == Ok(true)
      && (databases != [] ==> e.database in databases)
      && rec == Project(e, fields)
  }

  /** A projection keeps, in record order, the record's items whose key is
      listed; with no list it is the whole record. */
  lemma ProjectSpec(e: Entry, fields: seq<string>)
    ensures fields == [] ==> Project(e, fields) == Items(e)
    ensures fields != [] ==> forall it :: it in Project(e, fields) <==> it in Items(e) && it.0 in fields
  {
    FilterMembers(Items(e), (it: (string, Value)) => it.0 in fields);
  }

  // ---------------------------------------------------------- get_plot_data

  /** The end of the run of digits starting at `j`. */
  function DigitsEnd(s: string, j: nat): (d: nat)
    requires j <= |s|
    ensures j <= d <= |s| && (d < |s| ==> !IsDigit(s[d]))
    ensures forall k :: j <= k < d ==> IsDigit(s[k])
    decreases |s| - j
  {
    if j < |s| && IsDigit(s[j]) then DigitsEnd(s, j + 1) else j
  }

  /** `_NODE_([0-9]*)_` matched at `p`: the digits are all of those after
      `_NODE_`, since a shorter run is followed by a digit, not `_`. */
  function NodeAt(s: string, p: nat): Option<string> {
    if p + 6 <= |s| && s[p..p + 6] == "_NODE_" then
      var d := DigitsEnd(s, p + 6);
      if d < |s| && s[d] == '_' then Some(s[p + 6..d]) else None
    else None
  }

  /** The greedy leading `.*` makes the last matching position win. */
  function LastNode(s: string, p: nat): Option<string>
    requires p <= |s|
    decreases p
  {
    match NodeAt(s, p)
    case Some(c) => Some(c)
    case None => if p == 0 then None else LastNode(s, p - 1)
  }

  /** `re.search(".*_NODE_([0-9]*)_.*", reference).group(1)`: `.` stops at
      a newline, so the first line that matches decides, at its last
      match. */
  function NodeId(reference: string): Option<string> {
    FirstLineNode(SplitOn(reference, '\n'))
  }

  function FirstLineNode(segments: seq<string>): Option<string> {
    if segments == [] then None
    else match LastNode(segments[0], |segments[0]|)
      case Some(c) => Some(c)
      case None => FirstLineNode(segments[1..])
  }

  /** No capture means no matching position up to `p`. */
  lemma {:induction false} LastNodeNone(s: string, p: nat)
    requires p <= |s|
    ensures LastNode(s, p).None? ==> forall t: nat :: t <= p ==> NodeAt(s, t).None?
    decreases p
  {
    if NodeAt(s, p).None? && p > 0 {
      LastNodeNone(s, p - 1);
    }
  }

  /** The capture comes from the last matching position no later than `p`. */
  lemma {:induction false} LastNodeSpec(s: string, p: nat)
    requires p <= |s|
    ensures LastNode(s, p).Some? ==> exists q: nat :: q <= p && NodeAt(s, q) == LastNode(s, p) && forall t: nat :: q < t <= p ==> NodeAt(s, t).None?
    ensures LastNode(s, p).None? ==> forall t: nat :: t <= p ==> NodeAt(s, t).None?
    decreases p
  {
    LastNodeNone(s, p);
    if NodeAt(s, p).None? && p > 0 && LastNode(s, p).Some? {
      LastNodeSpec(s, p - 1);
      var q: nat :| q <= p - 1 && NodeAt(s, q) == LastNode(s, p) && forall t: nat :: q < t <= p - 1 ==> NodeAt(s, t).None?;
      forall t: nat | q < t <= p ensures NodeAt(s, t).None? {
        if t < p {
        }
      }
    }
  }

  /** Greediness: with two node names the last one is taken. */
  lemma NodeIdExample()
    ensures LastNode("a_NODE_1_b_NODE_22_c", 20) == Some("22")
  {
    var s := "a_NODE_1_b_NODE_22_c";
    assert s[10..16] == "_NODE_";
    assert DigitsEnd(s, 18) == 18;
    assert DigitsEnd(s, 17) == 18;
    assert DigitsEnd(s, 16) == 18;
    assert s[16..18] == "22" && s[18] == '_';
    assert NodeAt(s, 10) == Some("22");
    forall t | 10 < t <= 20 ensures NodeAt(s, t).None? {
      if t + 6 <= |s| {
        assert s[t..t + 6][1] == s[t + 1] != 'N';
      }
    }
    assert LastNode(s, 18) == LastNode(s, 16);
    assert LastNode(s, 16) == LastNode(s, 14);
    assert LastNode(s, 14) == LastNode(s, 12);
    assert LastNode(s, 12) == LastNode(s, 10);
  }

  /** One box of the plot. */
  datatype PlotRecord = PlotRecord(
    contig: string, seqRange: (int, int), gene: string, accession: Option<string>,
    coverage: Option<real>, identity: Option<real>)

  /** The database and the box of one entry; AttributeError when the
      reference has no `_NODE_<n>_` part. */
  function PlotItem(e: Entry): Result<(string, PlotRecord)> {
    match NodeId(e.reference)
    case None => Err(AttributeError)
    case Some(c) => Ok((e.database, PlotRecord(c, e.seqRange, e.gene, e.accession, e.coverage, e.identity)))
  }

  /** Appending each value to the list of its key, creating the list at
      the key's first appearance. */
  function Grouped<A>(items: seq<(string, A)>): (d: ODict<string, seq<A>>)
    ensures d.Valid()
  {
    if items == [] then Empty()
    else
      var n := |items| - 1;
      var d := Grouped(items[..n]);
      var (k, v) := items[n];
      d.Put(k, (if k in d.m then d.m[k] else []) + [v])
  }

  /** One more item joins the end of its key's group. */
  lemma GroupedSnoc<A>(items: seq<(string, A)>, k: string, v: A)
    ensures var d := Grouped(items);
      Grouped(items + [(k, v)]) == d.Put(k, (if k in d.m then d.m[k] else []) + [v])
  {
    assert (items + [(k, v)])[..|items|] == items;
  }

  /** The values of key `k`, in order: an independent description of one
      group. */
  function Select<A>(items: seq<(string, A)>, k: string): seq<A> {
    if items == [] then []
    else
      var n := |items| - 1;
      Select(items[..n], k) + (if items[n].0 == k then [items[n].1] else [])
  }

  /** Key `k` occurs among the items. */
  predicate Occurs<A>(items: seq<(string, A)>, k: string) {
    exists i :: 0 <= i < |items| && items[i].0 == k
  }

  /** There is one group per key that occurs. */
  lemma {:induction false} GroupedKeys<A>(items: seq<(string, A)>)
    ensures forall k :: k in Grouped(items).m <==> Occurs(items, k)
  {
    if items != [] {
      var n := |items| - 1;
      var pre := items[..n];
      GroupedKeys(pre);
      assert forall i :: 0 <= i < n ==> pre[i] == items[i];
      forall k ensures k in Grouped(items).m <==> Occurs(items, k) {
        if k in Grouped(items).m && k != items[n].0 {
          assert Occurs(pre, k);
          var i :| 0 <= i < n && pre[i].0 == k;
          assert items[i].0 == k;
        }
        if k == items[n].0 {
          assert items[n].0 == k;
        }
      }
    }
  }

  /** Each group lists its key's values in their order, and a key without
      a group has no values. */
  lemma {:induction false} GroupedValues<A>(items: seq<(string, A)>)
    ensures forall k :: k in Grouped(items).m ==> Grouped(items).m[k] == Select(items, k)
    ensures forall k :: k !in Grouped(items).m ==> Select(items, k) == []
  {
    if items != [] {
      var n := |items| - 1;
      GroupedValues(items[..n]);
    }
  }

  /** There is one group per key that occurs, and each group lists that
      key's values in their order. */
  lemma GroupedSpec<A>(items: seq<(string, A)>)
    ensures forall k :: k in Grouped(items).m <==> Occurs(items, k)
    ensures forall k :: k in Grouped(items).m ==> Grouped(items).m[k] == Select(items, k)
    ensures forall k :: k !in Grouped(items).m ==> Select(items, k) == []
  {
    GroupedKeys(items);
    GroupedValues(items);
  }

  /** `get_plot_data` on the stored entries. */
  function PlotData(entries: seq<Entry>): Result<ODict<string, seq<PlotRecord>>> {
    GroupAll(entries, PlotItem)
  }

  /** Grouping the items the entries give, or the first entry's error. */
  function GroupAll<A, B>(entries: seq<A>, item: A -> Result<(string, B)>): Result<ODict<string, seq<B>>> {
    match MapResult(entries, item)
    case Err(e) => Err(e)
    case Ok(items) => Ok(Grouped(items))
  }

  /** Grouping succeeds iff every entry gives an item, else it fails with
      some entry's error. */
  lemma GroupAllErrors<A, B>(entries: seq<A>, item: A -> Result<(string, B)>)
    ensures GroupAll(entries, item).Ok? <==> forall i :: 0 <= i < |entries| ==> item(entries[i]).Ok?
    ensures GroupAll(entries, item).Err? ==> exists i :: 0 <= i < |entries| && item(entries[i]) == Err(GroupAll(entries, item).error)
  {
    if MapResult(entries, item).Err? {
      assert GroupAll(entries, item).error == MapResult(entries, item).error;
    }
  }

  /** When grouping succeeds, each key that occurs has the group of its
      values, in order, and no other key has a group. */
  lemma GroupAllContents<A, B>(entries: seq<A>, item: A -> Result<(string, B)>)
    requires GroupAll(entries, item).Ok?
    ensures var items := MapResult(entries, item).value; var d := GroupAll(entries, item).value;
      && (forall k :: k in d.m <==> Occurs(items, k))
      && (forall k :: k in d.m ==> d.m[k] == Select(items, k))
  {
    var items := MapResult(entries, item).value;
    GroupedSpec(items);
    assert GroupAll(entries, item).value == Grouped(items);
  }

  /** An entry gives its box iff its reference has a node name; the box
      is filed under the entry's database. */
  lemma PlotItemSpec(e: Entry)
    ensures PlotItem(e).Ok? <==> NodeId(e.reference).Some?
    ensures PlotItem(e).Err? ==> PlotItem(e).error == AttributeError
    ensures PlotItem(e).Ok? ==> PlotItem(e).value.0 == e.database
  {
  }

  /** The plot data exists iff every reference has a node name; otherwise
      it is AttributeError. */
  lemma PlotDataErrors(entries: seq<Entry>)
    ensures PlotData(entries).Ok? <==> forall i :: 0 <= i < |entries| ==> NodeId(entries[i].reference).Some?
    ensures PlotData(entries).Err? ==> PlotData(entries).error == AttributeError
  {
    GroupAllErrors(entries, PlotItem);
    forall i | 0 <= i < |entries| ensures PlotItem(entries[i]).Ok? <==> NodeId(entries[i].reference).Some? {
      PlotItemSpec(entries[i]);
    }
    if PlotData(entries).Err? {
      var i :| 0 <= i < |entries| && PlotItem(entries[i]) == Err(PlotData(entries).error);
      PlotItemSpec(entries[i]);
    }
  }

  /** The database an entry is filed under. */
  function Database(e: Entry): string {
    e.database
  }

  /** When it exists, the plot data has a group for each database that
      occurs, listing in storage order the boxes of that database's
      entries. */
  lemma PlotDataGroups(entries: seq<Entry>)
    requires PlotData(entries).Ok?
    ensures var items := MapResult(entries, PlotItem).value; var d := PlotData(entries).value;
      && (forall i :: 0 <= i < |entries| ==> items[i] == PlotItem(entries[i]).value && items[i].0 == entries[i].database)
      && (forall db :: db in d.m <==> exists i :: 0 <= i < |entries| && entries[i].database == db)
      && (forall db :: db in d.m ==> d.m[db] == Select(items, db))
  {
    forall e: Entry | PlotItem(e).Ok? ensures PlotItem(e).value.0 == Database(e) {
      PlotItemSpec(e);
    }
    GroupAllKeyed(entries, PlotItem, Database);
  }

  /** The items are the entries' items, each filed under its entry's key. */
  lemma GroupAllItems<A, B>(entries: seq<A>, item: A -> Result<(string, B)>, key: A -> string)
    requires GroupAll(entries, item).Ok?
    requires forall e :: item(e).Ok? ==> item(e).value.0 == key(e)
    ensures var items := MapResult(entries, item).value;
      |items| == |entries| && forall i :: 0 <= i < |entries| ==> items[i] == item(entries[i]).value && items[i].0 == key(entries[i])
  {
    GroupAllErrors(entries, item);
  }

  /** When every item is filed under the key its entry gives, the groups
      are exactly the keys of the entries, each with its values in order. */
  lemma GroupAllKeyed<A, B>(entries: seq<A>, item: A -> Result<(string, B)>, key: A -> string)
    requires GroupAll(entries, item).Ok?
    requires forall e :: item(e).Ok? ==> item(e).value.0 == key(e)
    ensures var items := MapResult(entries, item).value; var d := GroupAll(entries, item).value;
      && (forall i :: 0 <= i < |entries| ==> items[i] == item(entries[i]).value && items[i].0 == key(entries[i]))
      && (forall k :: k in d.m <==> exists i :: 0 <= i < |entries| && key(entries[i]) == k)
      && (forall k :: k in d.m ==> d.m[k] == Select(items, k))
  {
    GroupAllItems(entries, item, key);
    GroupAllContents(entries, item);
    var items := MapResult(entries, item).value;
    var d := GroupAll(entries, item).value;
    forall k ensures k in d.m <==> exists i :: 0 <= i < |entries| && key(entries[i]) == k {
      if k in d.m {
        var i :| 0 <= i < |items| && items[i].0 == k;
      } else {
        assert !Occurs(items, k);
      }
    }
  }

  // -------------------------------------------------------------- the class

  /** The entries of keys 0 .. n-1, in key order: the order in which the
      dictionary holds them, since keys are inserted in increasing order. */
  function StorageSeq(storage: map<int, Entry>, n: nat): (r: seq<Entry>)
    requires forall i :: 0 <= i < n ==> i in storage
    ensures |r| == n
    ensures forall i :: 0 <= i < n ==> r[i] == storage[i]
  {
    if n == 0 then [] else StorageSeq(storage, n - 1) + [storage[n - 1]]
  }

  class Abricate {
    var storage: map<int, Entry>
    var key: nat

    /** The keys are exactly 0 .. key-1. */
    ghost predicate Valid()
      reads this
    {
      forall i :: i in storage <==> 0 <= i < key
    }

    function Entries(): (r: seq<Entry>)
      reads this
      requires Valid()
      ensures |r| == key
    {
      StorageSeq(storage, key)
    }

    /** `__init__` before the files are parsed. */
    constructor ()
      ensures Valid() && storage == map[] && key == 0
    {
      storage := map[];
      key := 0;
    }

    /** The loop of `_parser`, with `entry` reading each line. */
    method ParseWith(lines: seq<string>, entry: string -> Result<Option<Entry>>) returns (err: Option<Error>)
      requires Valid()
      modifies this
      ensures Valid()
      ensures Entries() == old(Entries()) + ParseLinesWith(lines, entry).0
      ensures err == ParseLinesWith(lines, entry).1
    {
      var i := 0;
      while i < |lines|
        invariant 0 <= i <= |lines| && Valid()
        invariant Entries() == old(Entries()) + ParseLinesWith(lines[..i], entry).0
        invariant ParseLinesWith(lines[..i], entry).1.None?
      {
        ParseLinesStep(lines, i, entry);
        var e := entry(lines[i]);
        if e.Err? {
          ParseLinesAppend(lines[..i + 1], lines[i + 1..], entry);
          assert lines[..i + 1] + lines[i + 1..] == lines;
          return Some(e.error);
        }
        if e.value.Some? {
          Store(e.value.value);
        }
        i := i + 1;
      }
      assert lines[..i] == lines;
      err := None;
    }

    /** `self.storage[self.key] = entry; self.key += 1` */
    method Store(e: Entry)
      requires Valid()
      modifies this
      ensures Valid()
      ensures Entries() == old(Entries()) + [e]
    {
      ghost var before := Entries();
      storage := storage[key := e];
      key := key + 1;
      assert Entries() == before + [e];
    }

    /** `_parser` on the lines of one file. */
    method Parser(lines: seq<string>) returns (err: Option<Error>)
      requires Valid()
      modifies this
      ensures Valid()
      ensures Entries() == old(Entries()) + ParseLines(lines).0
      ensures err == ParseLines(lines).1
    {
      err := ParseWith(lines, LineEntry);
    }

    /** `parse_files`: each existing file in turn, a missing one skipped. */
    method ParseFilesInto(files: seq<Option<seq<string>>>) returns (err: Option<Error>)
      requires Valid()
      modifies this
      ensures Valid()
      ensures Entries() == old(Entries()) + ParseFiles(files).0
      ensures err == ParseFiles(files).1
    {
      ghost var start := Entries();
      var i := 0;
      while i < |files|
        invariant 0 <= i <= |files| && Valid()
        invariant Entries() == start + ParseFiles(files[..i]).0
        invariant ParseFiles(files[..i]).1.None?
      {
        ParseFilesStep(files, i);
        if files[i].Some? {
          var e := Parser(files[i].value);
          if e.Some? {
            ParseFilesStops(files, i + 1);
            return e;
          }
        }
        i := i + 1;
      }
      assert files[..i] == files;
      err := None;
    }

    /** `iter_filter` collected by `get_filter`. */
    method GetFilter(filters: seq<Filter>, databases: seq<string>, fields: seq<string>, behavior: string) returns (r: Result<seq<seq<(string, Value)>>>)
      requires Valid()
      ensures r == IterFilter(Entries(), filters, databases, fields, behavior)
    {
      if behavior != "and" && behavior != "or" {
        return Err(ValueError);
      }
      var entries := Entries();
      var out: seq<seq<(string, Value)>> := [];
      var i := 0;
      while i < |entries|
        invariant 0 <= i <= |entries|
        invariant SelectWith(entries[..i], Selector(filters, databases, behavior), Projector(fields)) == Ok(out)
      {
        var dic := entries[i];
        SelectStep(entries, i, Selector(filters, databases, behavior), Projector(fields));
        var pass := SelectEntry(dic, filters, databases, behavior);
        if pass.Err? {
          return Err(pass.error);
        }
        if pass.value {
          out := out + [Project(dic, fields)];
        }
        i := i + 1;
      }
      assert entries[..i] == entries;
      r := Ok(out);
    }

    /** `get_plot_data` */
    method GetPlotData() returns (r: Result<ODict<string, seq<PlotRecord>>>)
      requires Valid()
      ensures r == PlotData(Entries())
    {
      r := GroupItems(Entries(), PlotItem);
    }
  }

  /** The loop of `get_plot_data`: each entry gives its database and its
      box, or raises; the box is appended to its database's list, which is
      created at the database's first appearance. */
  method GroupItems<A, B>(entries: seq<A>, item: A -> Result<(string, B)>) returns (r: Result<ODict<string, seq<B>>>)
    ensures r == GroupAll(entries, item)
  {
    var plotData := Empty<string, seq<B>>();
    ghost var items: seq<(string, B)> := [];
    var i := 0;
    while i < |entries|
      invariant 0 <= i <= |entries|
      invariant MapResult(entries[..i], item) == Ok(items)
      invariant plotData == Grouped(items)
    {
      MapResultStep(entries, i, item);
      var it := item(entries[i]);
      if it.Err? {
        assert MapResult(entries, item) == Err(it.error);
        return Err(it.error);
      }
      var (database, box) := it.value;
      assert MapResult(entries[..i + 1], item) == Ok(items + [(database, box)]);
      plotData := AppendToGroup(plotData, database, box);
      GroupedSnoc(items, database, box);
      items := items + [(database, box)];
      i := i + 1;
    }
    assert entries[..i] == entries;
    r := Ok(plotData);
  }

  /** Creating the database's list when it is missing, then appending the
      box to it. */
  method AppendToGroup<B>(plotData: ODict<string, seq<B>>, database: string, box: B) returns (d: ODict<string, seq<B>>)
    ensures d == plotData.Put(database, (if database in plotData.m then plotData.m[database] else []) + [box])
  {
    d := plotData;
    if database !in d.m {
      d := d.Put(database, []);
    }
    d := d.Put(database, d.m[database] + [box]);
    if database !in plotData.m {
      PutPut(plotData, database, [], [box]);
    }
  }

  /** `Abricate(fls)`: a fresh object with the files parsed. */
  method NewAbricate(files: seq<Option<seq<string>>>) returns (a: Abricate, err: Option<Error>)
    ensures fresh(a) && a.Valid()
    ensures a.Entries() == ParseFiles(files).0 && err == ParseFiles(files).1
  {
    a := new Abricate();
    err := a.ParseFilesInto(files);
  }

  /** One pass of `iter_filter`'s loop: the database restriction, the
      flags, then the behaviour. */
  method SelectEntry(dic: Entry, filters: seq<Filter>, databases: seq<string>, behavior: string) returns (r: Result<bool>)
    requires behavior == "and" || behavior == "or"
    ensures r == Selected(dic, filters, databases, behavior)
  {
    if databases != [] && dic.database !in databases {
      return Ok(false);
    }
    var flag := EntryFlags(dic, filters);
    if flag.Err? {
      return Err(flag.error);
    }
    var pass := false;
    if behavior == "and" {
      pass := AllTrue(flag.value);
    } else {
      pass := AnyTrue(flag.value);
    }
    r := Ok(pass);
  }

  /** The flags of one entry's filters, in order. */
  method EntryFlags(dic: Entry, filters: seq<Filter>) returns (r: Result<seq<bool>>)
    ensures r == Flags(dic, filters)
  {
    var flag: seq<bool> := [];
    var j := 0;
    while j < |filters|
      invariant 0 <= j <= |filters|
      invariant MapResult(filters[..j], f => FilterTest(dic, f)) == Ok(flag)
    {
      MapResultStep(filters, j, f => FilterTest(dic, f));
      var f := filters[j];
      var val := Lookup(Items(dic), f.key);
      if val.Err? {
        return Err(val.error);
      }
      var t := TestTruth(val.value, f.op, f.value);
      if t.Err? {
        return Err(t.error);
      }
      if !t.value {
        flag := flag + [false];
      } else {
        flag := flag + [true];
      }
      j := j + 1;
    }
    assert filters[..j] == filters;
    r := Ok(flag);
  }

  /** `all(flag)` */
  method AllTrue(flags: seq<bool>) returns (b: bool)
    ensures b == Passes(flags, "and")
  {
    b := true;
    var i := 0;
    while i < |flags|
      invariant 0 <= i <= |flags|
      invariant b == forall k :: 0 <= k < i ==> flags[k]
    {
      b := b && flags[i];
      i := i + 1;
    }
  }

  /** `any(flag)` */
  method AnyTrue(flags: seq<bool>) returns (b: bool)
    ensures b == Passes(flags, "or")
  {
    b := false;
    var i := 0;
    while i < |flags|
      invariant 0 <= i <= |flags|
      invariant b == exists k :: 0 <= k < i && flags[k]
    {
      b := b || flags[i];
      i := i + 1;
    }
  }

  lemma {:induction false} ParseFilesStops(files: seq<Option<seq<string>>>, n: nat)
    requires 0 < n <= |files| && ParseFiles(files[..n]).1.Some?
    ensures ParseFiles(files) == ParseFiles(files[..n])
    decreases |files| - n
  {
    if n < |files| {
      assert files[..n + 1][..n] == files[..n];
      FilesStopsStep(files, n);
      ParseFilesStops(files, n + 1);
    } else {
      assert files[..n] == files;
    }
  }

  /** One more file: a missing one changes nothing, an existing one adds
      its entries and its error. */
  lemma ParseFilesStep(files: seq<Option<seq<string>>>, n: nat)
    requires n < |files| && ParseFiles(files[..n]).1.None?
    ensures files[n].None? ==> ParseFiles(files[..n + 1]) == ParseFiles(files[..n])
    ensures files[n].Some? ==>
      var more := ParseLines(files[n].value);
      ParseFiles(files[..n + 1]) == (ParseFiles(files[..n]).0 + more.0, more.1)
  {
    assert files[..n + 1][..n] == files[..n];
  }

  lemma FilesStopsStep(files: seq<Option<seq<string>>>, n: nat)
    requires 0 < n < |files| && ParseFiles(files[..n]).1.Some?
    ensures ParseFiles(files[..n + 1]) == ParseFiles(files[..n])
  {
    assert files[..n + 1][..n] == files[..n];
  }

  /** One more item of the selection. */
  lemma SelectStep<A, R>(xs: seq<A>, n: nat, sel: A -> Result<bool>, proj: A -> R)
    requires n < |xs| && SelectWith(xs[..n], sel, proj).Ok?
    ensures sel(xs[n]).Ok? ==>
      var before := SelectWith(xs[..n], sel, proj).value;
      SelectWith(xs[..n + 1], sel, proj) == Ok(if sel(xs[n]).value then before + [proj(xs[n])] else before)
    ensures sel(xs[n]).Err? ==> SelectWith(xs, sel, proj) == Err(sel(xs[n]).error)
  {
    assert xs[..n + 1][..n] == xs[..n];
    if sel(xs[n]).Err? {
      SelectStops(xs, n + 1, sel, proj);
    }
  }

  lemma {:induction false} SelectStops<A, R>(xs: seq<A>, n: nat, sel: A -> Result<bool>, proj: A -> R)
    requires 0 < n <= |xs| && SelectWith(xs[..n], sel, proj).Err?
    ensures SelectWith(xs, sel, proj) == SelectWith(xs[..n], sel, proj)
    decreases |xs| - n
  {
    if n < |xs| {
      assert xs[..n + 1][..n] == xs[..n];
      SelectStops(xs, n + 1, sel, proj);
    } else {
      assert xs[..n] == xs;
    }
  }
}
