# Pipeline template scripts, modelled in Dafny

This project models the data-processing logic of the Python template scripts of a Nextflow pipeline for bacterial genomics. Each script reads the output of one tool: FastQC, Trimmomatic, SPAdes, Abricate, mash, or `samtools depth`/`samtools` coverage tables. It then computes a small report, a filtered file, or a pass/fail decision. Each script becomes one Dafny module over the lines of its input files:

| module | script | what is modelled |
|---|---|---|
| `AssemblyReport` | assembly_report.py | FASTA parsing into an ordered header→sequence map; the one-shot summary (contig count, mean size, N50, total length, mean GC, `N` count) and its CSV line |
| `ProcessSpades` | process_spades.py | SPAdes FASTA parsing with the k-mer coverage from the header; GC/AT/N content; the filtering rules and their report; the kept assembly and its length; `main`'s genome-size gate, length-only retry and contig-count warning |
| `IntegrityCoverage` | integrity_coverage.py | compression from the first bytes; the quality range and the encoding table; the single pass over the reads (bounds, encodings, characters, maximum read length); the five outputs, the `corrupt` path included |
| `ProcessAssemblyMapping` | process_assembly_mapping.py | the coverage table and its totals; the "auto" minimum coverage; the 80% check; the header-gated assembly filter and the contig list for the BAM filter |
| `ProcessAbricate` | process_abricate.py | the hit-table parser and its consecutive keys; the six-operator comparison; the AND/OR filter with database restriction and field projection; the plot data grouped by database with the contig from `_NODE_<n>_` |
| `FastqcReport` | fastqc_report.py | the trim index; the biased-position list and `trim_range`; the sample trim; the summary parser and health check |
| `TrimmomaticReport` | trimmomatic_report.py | the trim-log totals and percentage; the sample id; the CSV report |
| `Mapping2Json` | mapping2json.py | `depthfilereader`: distinct covered positions per plasmid, their share of the plasmid length, and the cutoff |
| `MashScreen2Json` | mashscreen2json.py | the hit table, the median of all multiplicities, the strict filter and the copy number |
| `MashDist2Json` | mashdist2json.py | the accession→similarity dictionary and the output name |
| `Spades` | spades.py | the k-mer list and the `-k` argument |

Python's own behaviour has shared modules of its own:
- `Wrappers`: exceptions become `Err` values of `Result`.
- `Strings`: `strip`, `split`, `join`, `startswith`, `count` and `rstrip` over a character set.
- `Numbers`: `int()`, `float()`, `str()` of integers, `round`, truncation.
- `Stats`: `sum`, `sorted`, `statistics.median`.
- `OrderedDicts`: insertion-ordered `dict`/`OrderedDict`.
- `Lists`: comprehensions and `[::-1]`.

Where the source updates objects in place, the model is a class with `modifies` clauses: `AssemblyReport.Assembly`, `ProcessSpades.SpadesAssembly`, `ProcessAbricate.Abricate`. Loops that update variables are methods with loop invariants. Each such method is proved equal to a specification function, and the properties are proved about that function.

Where a comment and the code disagree, the model follows the code. `trim_range` is the case: the comment at fastqc_report.py:163 says the biased list is split in halves, but the code takes the whole list and an empty one (see Findings).

## Model

| member | source | states |
|---|---|---|
| AssemblyReport.Joined | assembly_report.py:121-122 | each header's fragments are concatenated into one sequence, keeping the header order and the set of headers |
| AssemblyReport.ParseLinesValid | assembly_report.py:102-117 | the parsing loop keeps the current header among the recorded headers, so only a line itself can make it raise |
| AssemblyReport.SequenceBeforeHeader | assembly_report.py:115-117 | a sequence line before the first header (after any blank lines) raises KeyError |
| AssemblyReport.BlanksKeepState | assembly_report.py:106-108 | blank lines are skipped and leave no header and no contigs |
| AssemblyReport.BodyText | assembly_report.py:117 | the fragments of a record are at most as many as its body lines |
| AssemblyReport.BodyTextNonEmpty | assembly_report.py:106-117 | no recorded fragment is empty, because blank lines are skipped |
| AssemblyReport.ParseHeader | assembly_report.py:110-113 | a `>` line makes its stripped remainder the current header with an empty fragment list |
| AssemblyReport.ParseBodyLine | assembly_report.py:115-117 | a non-blank body line extends the current record by its stripped text, a blank one changes nothing |
| AssemblyReport.ParseBody | assembly_report.py:104-117 | body lines after a header leave that record holding their stripped non-blank text in order |
| AssemblyReport.ParseRecord | assembly_report.py:104-117 | a header followed by body lines replaces any earlier record of that header in place and leaves the other records unchanged |
| AssemblyReport.GcRatioBounds | assembly_report.py:158-160 | the G and C proportion of a non-empty contig lies in [0, 1] |
| AssemblyReport.Lengths | assembly_report.py:149-152 | `contig_size_list` holds one length per contig, in order |
| AssemblyReport.CountsOfN | assembly_report.py:163 | one `N` count per contig, in order |
| AssemblyReport.GcRatios | assembly_report.py:158-160 | one GC proportion per contig, in order |
| AssemblyReport.N50Index | assembly_report.py:174-179 | the N50 position is the first whose running sum of the descending lengths reaches half the total; no earlier one does, and `None` means none does |
| AssemblyReport.Accumulate | assembly_report.py:146-163 | over non-empty contigs the loop adds the lengths to `total_len`, the GC proportions to `avg_gc` and the `N` counts to `missing_data` |
| AssemblyReport.ListFold | assembly_report.py:146-163 | while `avg_gc` is a list the loop either succeeds, leaving it a list, or raises ZeroDivisionError |
| AssemblyReport.EmptyContig | assembly_report.py:158-160 | a zero-length contig raises ZeroDivisionError in the loop |
| AssemblyReport.FirstSummary | assembly_report.py:142-179 | the first summary of non-empty contigs has the contig count, total length, `N` count, mean size and a mean GC proportion in [0, 1]; N50 is found and is one of the lengths |
| AssemblyReport.FirstSummaryValue | assembly_report.py:142-179 | the first summary of non-empty contigs, value by value |
| AssemblyReport.MeanGcBounds | assembly_report.py:170-171 | the mean GC proportion of non-empty contigs lies in [0, 1] |
| AssemblyReport.N50Found | assembly_report.py:174-179 | with non-negative lengths the running sum reaches half the total, so N50 is always set |
| AssemblyReport.N50IsLength | assembly_report.py:175-178 | N50 is one of the contig lengths |
| AssemblyReport.ReachesHalf | assembly_report.py:175-177 | the full running sum reaches half of a non-negative total |
| AssemblyReport.N50Characterised | assembly_report.py:174-179 | N50 is the length at the first position whose running sum reaches half the total, with every earlier running sum below it |
| AssemblyReport.NoContigs | assembly_report.py:166-167 | an assembly with no contigs raises ZeroDivisionError at the mean contig size |
| AssemblyReport.SummaryEmptyContig | assembly_report.py:158-160 | a zero-length contig makes `get_summary_stats` raise ZeroDivisionError |
| AssemblyReport.SummaryOnce | assembly_report.py:158-171 | a second `get_summary_stats` on the same object raises AttributeError, because `avg_gc` is a float by then |
| AssemblyReport.CsvLineFields | assembly_report.py:183-185 | the CSV line is the sample, `, `, the six summary values in key order joined by commas, then a newline; it splits back into those six values |
| AssemblyReport.Assembly.constructor | assembly_report.py:54-79 | a new object holds the initial summary, no contigs and the sample id |
| AssemblyReport.Assembly.ParseAssembly | assembly_report.py:100-122 | `_parse_assembly` stores the parsed contigs, or reports the error of the line that raised and leaves the contigs unchanged |
| AssemblyReport.Assembly.AddContigs | assembly_report.py:142-163 | the loop of `get_summary_stats` gives the contig lengths and the summary after the loop, or the error raised |
| AssemblyReport.Assembly.GetSummaryStats | assembly_report.py:124-186 | `get_summary_stats` leaves `summary_info` equal to `SummaryStats` of the old summary and the contigs and returns its CSV line, or the error raised |
| AssemblyReport.FindN50 | assembly_report.py:174-179 | the N50 loop returns the N50 value of the descending lengths, or `None` when no running sum reaches half |
| AssemblyReport.NewAssembly | assembly_report.py:52-84 | `__init__` gives an object holding the parsed contigs and the initial summary exactly when the file parses, and otherwise the parse error |
| ProcessSpades.GetGcContent | process_spades.py:296-306 | `_get_gc_content` raises ZeroDivisionError exactly when the length is zero |
| ProcessSpades.GcContentSums | process_spades.py:296-306 | for a non-empty sequence `at` is the A+T count, `gc` the G+C count, `n` the rest; the three add up to the length, none is negative, the proportions add up to one and `gc_prop` lies in [0, 1] |
| ProcessSpades.GcContentOfLength | process_spades.py:296-306 | the same facts when the length passed in is the sequence's own length |
| ProcessSpades.SharesSum | process_spades.py:301-303 | three counts that add up to the length give proportions that add up to one |
| ProcessSpades.UnitShare | process_spades.py:302 | a count between zero and the length gives a proportion in [0, 1] |
| ProcessSpades.PopulateContigWellFormed | process_spades.py:241-275 | `_populate_contigs` succeeds exactly for a non-empty sequence and stores its header, coverage, sequence and GC content |
| ProcessSpades.TakeHeaderOk | process_spades.py:228-229 | a header with a numeric last `_` field becomes the header without `>` and the coverage, leaving the contigs and the buffer unchanged |
| ProcessSpades.StepBlank | process_spades.py:204-205 | a blank line changes nothing |
| ProcessSpades.StepSequence | process_spades.py:231-232 | a sequence line appends its stripped text to `seq_temp` |
| ProcessSpades.StepHeader | process_spades.py:210-229 | a header line first stores the pending contig, then takes the new header and coverage |
| ProcessSpades.ParseFromSnoc | process_spades.py:202-232 | the loop over lines plus one more is the loop followed by one more step |
| ProcessSpades.ParseFromStops | process_spades.py:202-232 | once a line has raised, no later line is reached |
| ProcessSpades.ParseFromStep | process_spades.py:202-232 | one more pass of the loop, and a line that raises ends the whole loop with its error |
| ProcessSpades.ParseFromAppend | process_spades.py:202-232 | parsing a concatenation parses the second part from where the first part stopped |
| ProcessSpades.ParseGoesOn | process_spades.py:202-232 | a line that parses extends the loop state by one line |
| ProcessSpades.ParseStopsAt | process_spades.py:202-232 | a line that raises ends `_parse_assembly` with its error |
| ProcessSpades.ParseContigs | process_spades.py:192-239 | a successful parse stores at least one contig, because the last one is always populated |
| ProcessSpades.ParseStepWellFormed | process_spades.py:213-226 | one step stores only non-empty contigs carrying their own GC content |
| ProcessSpades.ParseFromWellFormed | process_spades.py:202-232 | the loop stores only well-formed contigs |
| ProcessSpades.ParseContigsWellFormed | process_spades.py:192-275 | every parsed contig has a non-empty sequence and the GC content of that sequence |
| ProcessSpades.ParseContigsEmpty | process_spades.py:238-301 | an empty file raises ZeroDivisionError when its one contig is populated |
| ProcessSpades.BlankLineIgnored | process_spades.py:204-205 | a blank line anywhere in the file has no effect |
| ProcessSpades.FoldOne | process_spades.py:202-232 | the loop over one line is one step |
| ProcessSpades.HeaderWithoutSequenceDropped | process_spades.py:213-229 | of two header lines in a row (the first with a numeric coverage) the first is never stored: the file parses as if it were absent |
| ProcessSpades.FoldTwo | process_spades.py:202-232 | the loop over two lines is two steps |
| ProcessSpades.HeaderHeader | process_spades.py:213-229 | a header step followed by another header step equals the second step alone |
| ProcessSpades.HeaderLineNotBlank | process_spades.py:204-210 | a header line is never skipped as blank |
| ProcessSpades.StrippedAll | process_spades.py:208 | one stripped line per line |
| ProcessSpades.SequenceLinesBuffered | process_spades.py:231-232 | sequence lines only add their stripped text to `seq_temp` |
| ProcessSpades.SequenceLineStep | process_spades.py:231-232 | one more sequence line extends the buffer by its stripped text |
| ProcessSpades.ParseFromLine | process_spades.py:202-232 | the loop over a prefix plus one line is the prefix's state stepped by that line |
| ProcessSpades.BufferSnoc | process_spades.py:232 | appending a stripped line to the buffer matches stripping the longer prefix |
| ProcessSpades.HeaderStarts | process_spades.py:213-229 | after a header line with a numeric coverage the buffer is empty, the header and coverage are the line's, and the pending contig has been stored if there was one |
| ProcessSpades.LastRecordStored | process_spades.py:235-239 | the file's last record is stored with its header, coverage and joined sequence lines; with no sequence lines it raises ZeroDivisionError |
| ProcessSpades.ParseContigsFrom | process_spades.py:235-239 | the parse result from the loop's final state: the last contig is populated after the loop |
| ProcessSpades.RecordBuffered | process_spades.py:228-232 | after a header and sequence lines the buffer holds exactly the stripped sequence lines |
| ProcessSpades.HeaderState | process_spades.py:225-229 | after a header line the buffer is empty and the header and coverage are the line's |
| ProcessSpades.TestTruth | process_spades.py:332-339 | `_test_truth` raises KeyError exactly for an operator other than the four orderings, and TypeError exactly when the value is not a number |
| ProcessSpades.TestTruthOnNumbers | process_spades.py:332-339 | on numbers each operator is the ordering of the values, `<` is the negation of `>=` and `>` that of `<=` |
| ProcessSpades.FirstFailurePass | process_spades.py:380-388 | a contig passes exactly when every rule holds for it |
| ProcessSpades.FirstFailureAt | process_spades.py:380-386 | when rule `i` is the first that fails, the report records its key, the contig's value and the threshold |
| ProcessSpades.RejectedIdsSnoc | process_spades.py:381-382 | the next contig's id is appended exactly when it is rejected |
| ProcessSpades.RejectedIdsMembers | process_spades.py:379-386 | `filtered_ids` holds exactly the rejected ids, each once, in increasing order |
| ProcessSpades.RejectedIdsSorted | process_spades.py:379-382 | appending a rejected id keeps `filtered_ids` increasing |
| ProcessSpades.RetryPassesMore | process_spades.py:490-492 | without the k-mer rule every contig that passed still passes, and none raises |
| ProcessSpades.GcFiltersNeverRaise | process_spades.py:369-372 | the two GC rules compare floats and never raise |
| ProcessSpades.KeptContigs | process_spades.py:400-402 | the kept contigs are never more than the contigs |
| ProcessSpades.TotalLengthSnoc | process_spades.py:400-402 | the summed length of one more contig grows by its length |
| ProcessSpades.KeptLengthBound | process_spades.py:400-402 | `get_assembly_length` is between zero and the whole assembly's length, and equal to it when no contig is filtered |
| ProcessSpades.KeptLengthMono | process_spades.py:400-402 | filtering out fewer ids keeps at least as much sequence |
| ProcessSpades.RetryNeverShrinks | process_spades.py:482-494 | the retry without the k-mer rule never raises once the first filtering succeeded, and never shrinks the kept length |
| ProcessSpades.Records | process_spades.py:424-426 | one FASTA record per contig |
| ProcessSpades.RecordsSnoc | process_spades.py:424-426 | one more contig adds its record at the end |
| ProcessSpades.AssemblyTextKept | process_spades.py:404-426 | `write_assembly` writes the kept contigs' records in contig order, and nothing when `filtered` is false |
| ProcessSpades.SpadesAssembly.constructor | process_spades.py:129-160 | the initial state: no contigs, no filtered ids, an empty report, the length and k-mer rules, and the sample id |
| ProcessSpades.SpadesAssembly.ParseLine | process_spades.py:204-232 | one pass of the parsing loop equals the step function |
| ProcessSpades.SpadesAssembly.ParseAssembly | process_spades.py:173-239 | `_parse_assembly` stores the parsed contigs, or reports the error of the line that raised |
| ProcessSpades.SpadesAssembly.TestContig | process_spades.py:380-388 | the inner filtering loop gives the first failing rule's verdict, "pass", or the error raised |
| ProcessSpades.SpadesAssembly.FilterContigs | process_spades.py:341-388 | `filter_contigs` sets the filters to the comparisons plus the GC rules, and the report to every contig's verdict with `filtered_ids` the rejected ids, or reports the error raised |
| ProcessSpades.GenomeSizeFailCharacterised | process_spades.py:477-513 | `fails` is the large-genome failure exactly above 150% of the genome size, the small one exactly below 80% (and not above 150%), and none otherwise |
| ProcessSpades.FilteringsRetry | process_spades.py:482-494 | the final kept length is at least the first one, and equal to it unless the first fell below 80% |
| ProcessSpades.SpadesRunSizeGate | process_spades.py:466-513 | a run's size verdict is decided by the kept length of the written assembly |
| ProcessSpades.FilteringsKept | process_spades.py:482-484 | at or above 80% the first filtering is final |
| ProcessSpades.FilteringsRetried | process_spades.py:484-494 | below 80% the verdicts are the length-only retry's |
| ProcessSpades.SpadesRunOk | process_spades.py:466-546 | a run whose options, parse and filterings succeed gives the warnings, the size verdict, the written assembly and the report |
| ProcessSpades.SpadesRunFilterErr | process_spades.py:473-494 | a filtering that raises ends the run with its error |
| ProcessSpades.WarnExcessiveContigs | process_spades.py:517-526 | the warning is appended exactly when the number of contigs is above `max_contigs * gsize / 1.5` |
| ProcessSpades.CheckLarge | process_spades.py:506-513 | above 150% `fails` is overwritten by the large-genome failure, otherwise kept |
| ProcessSpades.ProcessSpades | process_spades.py:446-549 | `main`, with `fails` and `warnings` reassigned step by step, gives exactly `SpadesRun`: the error raised, or the outputs |
| IntegrityCoverage.SignaturesExclusive | integrity_coverage.py:111-115 | no two signatures of `MAGIC_DICT` can both start the same content |
| IntegrityCoverage.MatchMagicUnfold | integrity_coverage.py:156-160 | the signatures are tried in table order: gz, then bz2, then zip, else None |
| IntegrityCoverage.StartDecides | integrity_coverage.py:151-157 | reading only the first `max_len` (4) bytes decides each signature as the whole content would |
| IntegrityCoverage.GuessFileCompressionSpec | integrity_coverage.py:111-160 | the guess is a format exactly when the content starts with that format's signature, and None exactly when it starts with none |
| IntegrityCoverage.QualRange | integrity_coverage.py:179-181 | `get_qual_range` raises ValueError exactly on the empty string, and otherwise gives min <= max |
| IntegrityCoverage.QualRangeSpec | integrity_coverage.py:179-181 | the range holds every code point of the string, and both of its ends are code points of the string |
| IntegrityCoverage.EncodingsFrom | integrity_coverage.py:209-217 | the encoding and phred lists have the same length, at most the number of rows |
| IntegrityCoverage.EncodingsFromRows | integrity_coverage.py:212-215 | each listed encoding comes with its phred at the same position from a row whose range contains [rmin, rmax] |
| IntegrityCoverage.EncodingsFromNames | integrity_coverage.py:212-215 | with distinct names, a row's name is listed iff its range contains [rmin, rmax] |
| IntegrityCoverage.EncodingsInRangeSpec | integrity_coverage.py:92-217 | an encoding of `RANGES` is returned iff its range contains [rmin, rmax] |
| IntegrityCoverage.EncodingsAntiMonotone | integrity_coverage.py:213 | widening the range never adds an encoding |
| IntegrityCoverage.EncodingsExamples | integrity_coverage.py:92-98 | (33, 73) gives Sanger and Illumina-1.8 with phreds 33, 33; (33, 74) gives only Illumina-1.8 |
| IntegrityCoverage.ScanStep | integrity_coverage.py:282-306 | the state after n lines is line n-1's step applied to the state after n-1 lines |
| IntegrityCoverage.QualityStepFacts | integrity_coverage.py:286-296 | a quality line leaves the counts unchanged and only widens the bounds to take in its range; when a bound moves the encodings are those of the new bounds |
| IntegrityCoverage.ScanConsistent | integrity_coverage.py:245-296 | the encodings stay empty until a bound widens and are then those of the current bounds; with `-e` they stay empty |
| IntegrityCoverage.ScanOk | integrity_coverage.py:239-290 | the scan fails exactly when a quality line it reads strips to nothing (never with `-e`), and then with ValueError |
| IntegrityCoverage.ScanBounds | integrity_coverage.py:245-296 | the bounds start at (99, 0), only widen, and hold every character of every quality line read |
| IntegrityCoverage.ScanLengths | integrity_coverage.py:250-306 | the maximum read length is at least every stripped sequence-line length, is 0 or one of them, and never exceeds `chars` |
| IntegrityCoverage.ScanLineLengths | integrity_coverage.py:300-306 | a line changes `chars` and `max_read_length` only when it is a sequence line, by its stripped length |
| IntegrityCoverage.SingleCandidateIsNone | integrity_coverage.py:311-325 | a single candidate encoding (the Illumina-1.8 range alone) is written as "None" |
| IntegrityCoverage.StripAll | integrity_coverage.py:289-301 | each line is seen as `line.strip()` gives it |
| IntegrityCoverage.SkipEncodingGuessesNone | integrity_coverage.py:239-286 | with `-e` in the options no encoding is ever guessed |
| IntegrityCoverage.OutputsSpec | integrity_coverage.py:311-345 | EOFError writes "corrupt" to all five files; otherwise the encoding and phred files hold the candidate sets when there are more than one and "None" for zero or one, the coverage file holds the estimate iff it reaches the minimum and "fail" otherwise, the report line is "id,cov,PASS" or "id,cov,FAIL", and the length file holds the longest sequence line |
| IntegrityCoverage.IntegrityErrors | integrity_coverage.py:286-328 | a blank quality line raises ValueError unless `-e` is given; a zero genome size raises ZeroDivisionError once the files were read to their end |
| IntegrityCoverage.CoverageEstimate | integrity_coverage.py:328 | the coverage is the character count per genome base, rounded to two places, within 0.005 of the exact ratio |
| IntegrityCoverage.ScanLines | integrity_coverage.py:282-306 | the line loop returns `Scan` of the stripped lines |
| IntegrityCoverage.IntegrityCoverage | integrity_coverage.py:238-345 | `main` returns `IntegrityOf`: the scan's ValueError, then "corrupt" on EOFError, then ZeroDivisionError for a zero genome size, else the outcome |
| IntegrityCoverage.ScanStops | integrity_coverage.py:282-290 | once a line raises, the scan of all lines raises the same error |
| ProcessAssemblyMapping.UnderscoreFrom | process_assembly_mapping.py:101 | the lazy `(.+?)_` stops at the first `_` at or after j, and never crosses a newline |
| ProcessAssemblyMapping.UnderscoreFromSpec | process_assembly_mapping.py:101 | no `_` or newline lies before the `_` found; when none is found every later `_` has a newline before it |
| ProcessAssemblyMapping.CaptureAtSpec | process_assembly_mapping.py:101 | a match at p captures c exactly when "length_" stands at p, c follows with at least one character, holds no newline and no `_` after its first character, and a `_` follows it |
| ProcessAssemblyMapping.LengthSearchSpec | process_assembly_mapping.py:101 | `re.search` gives the capture of the leftmost position where the pattern matches, and None when it matches nowhere |
| ProcessAssemblyMapping.LengthCaptureExample | process_assembly_mapping.py:72-101 | "NODE_1_length_42_cov_7" captures "42" |
| ProcessAssemblyMapping.Table | process_assembly_mapping.py:91-108 | the table's dictionary is well formed |
| ProcessAssemblyMapping.TableStep | process_assembly_mapping.py:98-106 | one more line puts its contig into the dictionary and adds its length and coverage to the totals, or stops the loop with its error |
| ProcessAssemblyMapping.TotalsSnoc | process_assembly_mapping.py:102-106 | one more contig is put last into the dictionary and added to both totals |
| ProcessAssemblyMapping.ReadTable | process_assembly_mapping.py:91-108 | the line loop returns `Table` of the lines with each line read by `entry` |
| ProcessAssemblyMapping.ParseCoverageTable | process_assembly_mapping.py:63-108 | `parse_coverage_table` returns `ParseCoverage` of its lines |
| ProcessAssemblyMapping.TableContents | process_assembly_mapping.py:97-108 | the table is read iff every line parses, else the first failing line's error; then one entry per distinct contig, in order of first appearance, holding its last line's values, while both totals sum over every line |
| ProcessAssemblyMapping.DuplicateContig | process_assembly_mapping.py:102-106 | two lines for the same contig leave one entry, with the second line's values, while both lines count in the totals |
| ProcessAssemblyMapping.MinCoverageSpec | process_assembly_mapping.py:271-279 | "auto" raises ZeroDivisionError exactly for a zero total size, else gives the larger of 10 and 0.3 times the mean coverage (never below 10); any other argument gives its `int()` value or ValueError |
| ProcessAssemblyMapping.KeptLengthAntitone | process_assembly_mapping.py:235-236 | with non-negative lengths, a higher threshold keeps no more assembly length |
| ProcessAssemblyMapping.CheckMonotone | process_assembly_mapping.py:235-243 | raising the minimum coverage can only turn a passing check into a failing one |
| ProcessAssemblyMapping.ContigListSpec | process_assembly_mapping.py:177-178 | the BAM contig list holds exactly the table's contigs whose coverage reaches the threshold, and is no longer than the table |
| ProcessAssemblyMapping.CurrentHeader | process_assembly_mapping.py:138-153 | the contig a line belongs to is the last header at or before it |
| ProcessAssemblyMapping.FilterLinesSpec | process_assembly_mapping.py:134-153 | the streaming filter succeeds iff every header is decided, else raises a header's error; then it writes exactly the lines under kept headers, in input order, and `write_flag` tells whether the current contig is kept |
| ProcessAssemblyMapping.BeforeFirstHeaderDropped | process_assembly_mapping.py:134-152 | lines before the first header are never written |
| ProcessAssemblyMapping.FilterStops | process_assembly_mapping.py:145 | once a header raises, the whole filter raises the same error |
| ProcessAssemblyMapping.FilterAssembly | process_assembly_mapping.py:134-153 | the loop under `write_flag` returns `FilteredAssembly` of the lines: KeyError for a header missing from the table, else the kept lines |
| ProcessAssemblyMapping.FilterMatchesContigList | process_assembly_mapping.py:145-178 | the filter succeeds iff every header is in the table and otherwise raises KeyError; a header's contig is written iff it is in the BAM contig list |
| ProcessAssemblyMapping.ProcessAssemblyMappingSpec | process_assembly_mapping.py:268-298 | when the 80% coverage check passes the assembly is filtered and the BAM keeps the listed contigs; when it fails both inputs are copied verbatim |
| ProcessAbricate.Lookup | process_abricate.py:286 | `dic[k]` succeeds exactly when the key is among the entry's items, and raises KeyError otherwise |
| ProcessAbricate.StrLessTrichotomy | process_abricate.py:196-205 | Python's ordering of text is strict and total: exactly one of `a < b`, `a == b`, `b < a` |
| ProcessAbricate.TestTruthSpec | process_abricate.py:196-205 | `_test_truth` raises KeyError exactly for an operator outside the six; `==` and `!=` never raise and negate each other; the orderings raise TypeError exactly on incomparable values and compare numbers by value |
| ProcessAbricate.TestTruthOrders | process_abricate.py:196-205 | on comparable values `>` negates `<=`, `<` negates `>=`, and `>=` is `>` or `==` |
| ProcessAbricate.LineEntrySpec | process_abricate.py:142-170 | a line is dropped exactly when it is a comment or blank; a kept line gives an entry exactly when it has at least eleven fields with integers in fields 2 and 3; the entry holds those fields, coverage and identity fall back to None when not numeric, and the accession is None exactly when there is no twelfth field |
| ProcessAbricate.ParseLinesStep | process_abricate.py:140-172 | one more line continues the parse by that line's entry, nothing, or its error |
| ProcessAbricate.ParseLinesAppend | process_abricate.py:140-172 | parsing a concatenation parses the first part, then the second with the keys carrying on |
| ProcessAbricate.SkippedLineIgnored | process_abricate.py:142-143 | a comment or blank line anywhere changes nothing |
| ProcessAbricate.ParseLinesErrors | process_abricate.py:140-172 | a file parses without error exactly when every line does; on an error, the entries before the failing line stay; there are never more entries than lines |
| ProcessAbricate.ParseFilesConcat | process_abricate.py:111-116 | parsing the existing files in turn is parsing all their lines as one file, a missing file being skipped |
| ProcessAbricate.SelectedSpec | process_abricate.py:267-301 | an entry outside the listed databases is skipped; otherwise the filters raise exactly when one of them does, "and" keeps the entry exactly when every filter holds and "or" exactly when some filter holds |
| ProcessAbricate.EmptyFilterList | process_abricate.py:294-299 | with no filters "and" keeps every entry of the databases and "or" keeps none |
| ProcessAbricate.SingleFilterBehaviors | process_abricate.py:294-299 | with one filter "and" and "or" agree |
| ProcessAbricate.MapSeq | process_abricate.py:303 | one result per item, each the function of that item |
| ProcessAbricate.SelectWithSpec | process_abricate.py:267-305 | the selection succeeds exactly when the test does on every item, and is then the kept items, mapped, in order |
| ProcessAbricate.IterFilterSpec | process_abricate.py:264-323 | a behaviour other than "and" or "or" raises ValueError; otherwise the call succeeds exactly when every entry's selection does, and yields, in storage order, the projection of every selected entry |
| ProcessAbricate.IterFilterFrom | process_abricate.py:278-305 | every yielded record is the projection of a stored entry that passed, of a listed database when databases are given |
| ProcessAbricate.ProjectSpec | process_abricate.py:302-305 | without `fields` the whole record is yielded; with them, exactly the record's items whose key is listed |
| ProcessAbricate.DigitsEnd | process_abricate.py:373-374 | the run of digits `[0-9]*` ends at the first non-digit |
| ProcessAbricate.LastNodeNone | process_abricate.py:373-374 | no capture means no matching position up to the end |
| ProcessAbricate.LastNodeSpec | process_abricate.py:373-374 | the greedy leading `.*` takes the capture from the last matching position |
| ProcessAbricate.NodeIdExample | process_abricate.py:373-374 | with two node names in a reference the last one is taken |
| ProcessAbricate.Grouped | process_abricate.py:376-387 | the grouped plot data is a well-formed ordered dictionary |
| ProcessAbricate.GroupedSnoc | process_abricate.py:376-387 | one more item joins the end of its database's list, which is created at the database's first appearance |
| ProcessAbricate.GroupedKeys | process_abricate.py:376-378 | there is one list per database that occurs |
| ProcessAbricate.GroupedValues | process_abricate.py:380-387 | each list holds its database's boxes in their order |
| ProcessAbricate.GroupedSpec | process_abricate.py:368-389 | one list per database that occurs, each with that database's boxes in order |
| ProcessAbricate.GroupAllErrors | process_abricate.py:370-374 | grouping succeeds exactly when every entry gives an item, and otherwise fails with some entry's error |
| ProcessAbricate.GroupAllContents | process_abricate.py:370-387 | a successful grouping has exactly the keys that occur, each with its values in order |
| ProcessAbricate.PlotItemSpec | process_abricate.py:373-386 | an entry gives its box exactly when its reference has a `_NODE_<n>_` part, else AttributeError; the box is filed under the entry's database |
| ProcessAbricate.PlotDataErrors | process_abricate.py:370-374 | `get_plot_data` succeeds exactly when every reference has a node name, and otherwise raises AttributeError |
| ProcessAbricate.PlotDataGroups | process_abricate.py:368-389 | the plot data has one list per database that occurs, holding in storage order the boxes of that database's entries |
| ProcessAbricate.GroupAllItems | process_abricate.py:370-386 | every item is its entry's, filed under the entry's key |
| ProcessAbricate.GroupAllKeyed | process_abricate.py:370-387 | with items filed by their entry's key, the groups are exactly the keys of the entries, each with its values in order |
| ProcessAbricate.StorageSeq | process_abricate.py:161-172 | the stored entries in key order, one per key |
| ProcessAbricate.Abricate.Entries | process_abricate.py:74-90 | there are as many stored entries as the key counter says |
| ProcessAbricate.Abricate.constructor | process_abricate.py:74-90 | the storage starts empty with the key at zero |
| ProcessAbricate.Abricate.ParseWith | process_abricate.py:138-172 | the parser loop appends the entries of the lines to the storage and reports the error that stopped it |
| ProcessAbricate.Abricate.Store | process_abricate.py:161-172 | storing an entry under the current key and incrementing the key appends it to the entries, keeping the keys consecutive |
| ProcessAbricate.Abricate.Parser | process_abricate.py:118-172 | `_parser` appends the entries of one file's lines and reports the error raised |
| ProcessAbricate.Abricate.ParseFilesInto | process_abricate.py:97-116 | `parse_files` appends the entries of each existing file in turn, skipping missing files, and stops at the first error |
| ProcessAbricate.Abricate.GetFilter | process_abricate.py:207-323 | `get_filter` returns exactly `IterFilter` of the stored entries |
| ProcessAbricate.Abricate.GetPlotData | process_abricate.py:344-389 | `get_plot_data` returns exactly `PlotData` of the stored entries |
| ProcessAbricate.GroupItems | process_abricate.py:370-387 | the grouping loop, creating each database's list at its first appearance, equals `GroupAll` |
| ProcessAbricate.AppendToGroup | process_abricate.py:376-387 | the list of the database is created when missing, then the box is appended to it |
| ProcessAbricate.NewAbricate | process_abricate.py:72-95 | `Abricate(fls)` is a fresh object holding exactly the entries of the parsed files |
| ProcessAbricate.SelectEntry | process_abricate.py:278-299 | one pass of `iter_filter`'s loop equals `Selected` |
| ProcessAbricate.EntryFlags | process_abricate.py:284-290 | the flags are the filters' tests, in order, or the first error |
| ProcessAbricate.AllTrue | process_abricate.py:295 | `all(flag)` |
| ProcessAbricate.AnyTrue | process_abricate.py:298 | `any(flag)` |
| ProcessAbricate.ParseFilesStops | process_abricate.py:111-114 | an error in one file ends `parse_files`: later files are not read |
| ProcessAbricate.ParseFilesStep | process_abricate.py:111-116 | one more file: a missing one changes nothing, an existing one adds its entries and its error |
| ProcessAbricate.FilesStopsStep | process_abricate.py:111-114 | after an error one more file changes nothing |
| ProcessAbricate.SelectStep | process_abricate.py:267-305 | one more entry is yielded, skipped, or ends the call with its error |
| ProcessAbricate.SelectStops | process_abricate.py:267-305 | after an error in the selection later entries change nothing |
| FastqcReport.TrimScan | fastqc_report.py:96-103 | the scan from position i ends between i and the length of the list |
| FastqcReport.TrimIndex | fastqc_report.py:88-103 | `get_trim_index` lies in [0, len] |
| FastqcReport.TrimScanFirst | fastqc_report.py:96-103 | the scan stops just past the first biased position after i whose next one or two positions are unbiased, or returns the length when there is none |
| FastqcReport.TrimIndexSpec | fastqc_report.py:88-103 | the index is 0 exactly for a list without biased positions, the empty one included; otherwise it is one past the first biased position followed by clean ones, or the length when no such position exists |
| FastqcReport.TrimIndexExamples | fastqc_report.py:68-98 | [T,T,F,T,T,F,F,F,F] gives 5; a biased position followed by one final unbiased one qualifies ([T,F] gives 1); [T,T] gives the length |
| FastqcReport.GatherSkips | fastqc_report.py:141-147 | lines before the first target header are passed over, and the header consumes the comment line after it |
| FastqcReport.GatherRun | fastqc_report.py:148-161 | inside the module each data line appends its bias, up to the end line |
| FastqcReport.GatherBody | fastqc_report.py:145-161 | from just after the header and comment line to the end line, the list holds the data lines' biases in order |
| FastqcReport.GatherModule | fastqc_report.py:141-161 | for a file whose first target header is followed by a comment line, data lines and an end line, the biased list holds exactly the data lines' biases |
| FastqcReport.BiasedWithoutModule | fastqc_report.py:141-161 | a file without the target header gives an empty biased list |
| FastqcReport.TrimsAsWritten | fastqc_report.py:164-171 | the trims as composed, the 5' trim never beyond the 3' trim |
| FastqcReport.TrimsAsWrittenKeepsThreeEnd | fastqc_report.py:164-171 | as written the 5' trim is the trim index of the whole list and the 3' trim is always its length; the 5' trim is 0 iff no position is biased |
| FastqcReport.TrimsAsWrittenMissesThreeEnd | fastqc_report.py:163-171 | for [F,F,F,T] the code gives (4, 4), where the split into halves gives (0, 3) |
| FastqcReport.Trims | fastqc_report.py:163 | with the list split in halves, the 5' trim stays in the first half and the 3' trim in the second |
| FastqcReport.TrimsNone | fastqc_report.py:163 | with the split in halves, each trim removes nothing exactly when its half has no biased position |
| FastqcReport.TrimsMirror | fastqc_report.py:163 | with the split in halves, reversing an even-length list swaps the roles of the two ends |
| FastqcReport.TrimRangeSpec | fastqc_report.py:133-173 | `trim_range` succeeds iff the biased list is read, and then returns (trim index of the list, its length), with a 5' trim of 0 iff no position is biased |
| FastqcReport.TrimRange | fastqc_report.py:133-173 | the line loop under the `gather` flag returns `TrimRangeOf` of the file's lines |
| FastqcReport.SampleTrim | fastqc_report.py:207-211 | the sample's 5' trim is the larger of the two and is one of them; its 3' trim is the smaller and is one of them |
| FastqcReport.GetSampleTrim | fastqc_report.py:204-211 | `get_sample_trim` succeeds iff both files do, raises the first file's error first, and combines the two ranges by `SampleTrim` |
| FastqcReport.GetSummary | fastqc_report.py:242-253 | the line loop returns `Summary` of the lines |
| FastqcReport.SummaryOk | fastqc_report.py:245-251 | the summary is read iff every non-blank line has a second tab-separated field |
| FastqcReport.SummaryKeys | fastqc_report.py:247-251 | its categories are exactly the stripped second fields of the non-blank lines |
| FastqcReport.SummaryLast | fastqc_report.py:250-251 | a category holds the stripped first field of the last non-blank line that names it |
| FastqcReport.HealthyItemsSpec | fastqc_report.py:311-322 | the scan with early returns passes iff no item is a failed fail-sensitive category or a must-pass category that did not pass |
| FastqcReport.CheckSummaryHealth | fastqc_report.py:309-322 | `check_summary_health` succeeds iff the summary is read, and returns that summary beside the flag |
| FastqcReport.SummaryHealthSpec | fastqc_report.py:294-322 | the sample is healthy iff no category present in the summary is fail-sensitive and "FAIL", or must-pass and not "PASS"; absent categories are never checked |
| TrimmomaticReport.LastFour | trimmomatic_report.py:84 | `split()[-4:]` keeps the last four tokens, or all of them when there are fewer |
| TrimmomaticReport.IntFields | trimmomatic_report.py:84 | `[int(x) for x in ...]` gives one integer per token, or the first token's ValueError |
| TrimmomaticReport.TotalsBalanced | trimmomatic_report.py:86-88 | after any number of lines `total_trim` equals `5trim` plus `3trim` |
| TrimmomaticReport.AddLineBalanced | trimmomatic_report.py:86-89 | one line keeps `total_trim == 5trim + 3trim` |
| TrimmomaticReport.ParseLog | trimmomatic_report.py:63-96 | `parse_log`'s loop and percentage return `LogStats` of the lines: the counters, then ZeroDivisionError when nothing was counted |
| TrimmomaticReport.CountLine | trimmomatic_report.py:84-89 | the loop body returns `AddLine`: ValueError for a non-integer token, IndexError below four fields, else the updated counters |
| TrimmomaticReport.AddLineOfIntegers | trimmomatic_report.py:84-89 | a line whose last four tokens are integers a, b, s, d adds a to `clean_len`, b to `5trim`, d to `3trim` and b + d to `total_trim`; s is read but not counted |
| TrimmomaticReport.AddLineOfFields | trimmomatic_report.py:86-89 | four parsed fields a, b, s, d update the counters as above |
| TrimmomaticReport.IntFieldOfString | trimmomatic_report.py:84 | `int(str(n)) == n` for every integer |
| TrimmomaticReport.ShortLineRaises | trimmomatic_report.py:84-87 | a line with fewer than four integer tokens raises IndexError |
| TrimmomaticReport.TotalsNatural | trimmomatic_report.py:84-89 | lines without negative fields keep every counter non-negative |
| TrimmomaticReport.AddLineNatural | trimmomatic_report.py:84-89 | one such line keeps the counters non-negative |
| TrimmomaticReport.TrimPercentageBounds | trimmomatic_report.py:91-94 | the percentage raises exactly when `clean_len + total_trim` is 0, and with non-negative counters lies in [0, 100] |
| TrimmomaticReport.RowsSnoc | trimmomatic_report.py:117-119 | one more sample adds its row and a newline at the end of the text |
| TrimmomaticReport.WriteReport | trimmomatic_report.py:111-119 | `write_report` writes the fixed header, then one row per sample in storage order |
| TrimmomaticReport.RowFields | trimmomatic_report.py:63-119 | a row splits on ',' into the sample and the five values in the order clean_len, total_trim, total_trim_perc, 5trim, 3trim |
| TrimmomaticReport.SampleIdAsWritten | trimmomatic_report.py:135 | `log.rstrip("_trimlog.txt")` gives a prefix of the path |
| TrimmomaticReport.SampleIdAsWrittenCutsName | trimmomatic_report.py:135 | when the name before "_trimlog.txt" ends in one of its characters, the rstrip also removes that character; the literal suffix removal keeps it |
| TrimmomaticReport.CatLogCut | trimmomatic_report.py:135 | "cat_trimlog.txt" is filed under "ca", where removing the literal suffix gives "cat" |
| TrimmomaticReport.SuffixStripped | trimmomatic_report.py:135 | stripping the suffix's characters strips the whole suffix and then goes on into the name |
| TrimmomaticReport.SampleId | trimmomatic_report.py:135 | removing the literal suffix gives a prefix of the path |
| TrimmomaticReport.SampleIdOfLog | trimmomatic_report.py:135 | removing the literal suffix turns `name + "_trimlog.txt"` back into `name` |
| TrimmomaticReport.Storage | trimmomatic_report.py:131-138 | `log_storage` after `main`'s loop is a well-formed ordered dictionary |
| TrimmomaticReport.RunReport | trimmomatic_report.py:131-140 | `main` returns the report over the storage filled log by log under the rstrip sample id, or the first log's exception |
| TrimmomaticReport.StorageEntries | trimmomatic_report.py:133-138 | the storage is built iff every log parses; its keys are exactly the logs' sample ids, each holding the statistics of the id's last log |
| TrimmomaticReport.LogEntryOf | trimmomatic_report.py:135-138 | one log gives its sample id and its statistics, and fails exactly when its statistics fail |
| Mapping2Json.Nest | mapping2json.py:96-105 | `depth_dic_coverage` is a well-formed ordered table: one entry per reference, in order of first appearance |
| Mapping2Json.NestKeys | mapping2json.py:99-104 | the table holds exactly the references that occur in some row |
| Mapping2Json.NestPositions | mapping2json.py:101-105 | each reference's inner dictionary holds exactly the positions that occur with it, so a repeated position counts once |
| Mapping2Json.NestLast | mapping2json.py:105 | at a position, the depth stored is that of the last row for that reference and position |
| Mapping2Json.CoveredErrors | mapping2json.py:108-111 | the second loop succeeds iff every reference has a length and it is non-zero; otherwise it raises the first such reference's KeyError or ZeroDivisionError |
| Mapping2Json.CoveredKeys | mapping2json.py:108-114 | the second loop keeps only references of the table |
| Mapping2Json.CoveredSpec | mapping2json.py:108-114 | a reference is kept iff its distinct positions divided by its length reach the cutoff, and its value is that share |
| Mapping2Json.CoveredRowsOk | mapping2json.py:108-111 | over the rows the table was built from: the loop succeeds iff every row's reference has a usable length |
| Mapping2Json.CoveredRowsKept | mapping2json.py:113-114 | every kept reference occurs in some row |
| Mapping2Json.CoveredRowsValues | mapping2json.py:110-114 | a row's reference is kept iff its share of distinct positions reaches the cutoff, and then holds that share |
| Mapping2Json.BasesCoveredSpec | mapping2json.py:96-116 | `depthfilereader` raises the first unparsable line's error; otherwise it succeeds iff every reference has a non-zero length; then it keeps exactly the references whose distinct positions per base reach the cutoff, valued at that share, and nothing else |
| Mapping2Json.NestShape | mapping2json.py:96-105 | rows with the same references and positions in the same order give tables of the same shape, whatever their depths |
| Mapping2Json.CoveredShape | mapping2json.py:108-114 | the second loop depends only on the shape of the table, never on the depths |
| Mapping2Json.DepthValuesIrrelevant | mapping2json.py:102-110 | two depth files whose lines agree on reference and position give the same result |
| Mapping2Json.ReadDepth | mapping2json.py:96-105 | the first loop returns `Nest` of the parsed rows, or the first failing line's error |
| Mapping2Json.PercentageLoop | mapping2json.py:107-116 | the second loop returns `Covered` over the whole table |
| Mapping2Json.DepthFileReader | mapping2json.py:73-116 | `depthfilereader` returns `BasesCovered` of its lines |
| MashScreen2Json.Dic | mashscreen2json.py:81-99 | `dic` after the first loop is a well-formed insertion-ordered dictionary |
| MashScreen2Json.Mults | mashscreen2json.py:100 | `median_list` holds, position by position, the multiplicity of every parsed line |
| MashScreen2Json.MedianListAllLines | mashscreen2json.py:85-100 | `median_list` has one entry per line, repeated query ids included, each the float of that line's column 2 |
| MashScreen2Json.FirstPass | mashscreen2json.py:81-100 | the first loop returns `dic` and `median_list` as specified, or the first failing line's IndexError/ValueError |
| MashScreen2Json.Filtering | mashscreen2json.py:110-116 | `filtered_dic` after any prefix of `dic` is a well-formed dictionary |
| MashScreen2Json.SecondPass | mashscreen2json.py:110-116 | the second loop returns `Filtered`: ZeroDivisionError for a zero cutoff and a non-empty `dic`, else the kept rows |
| MashScreen2Json.FilteredFrom | mashscreen2json.py:111-116 | every output key comes from a hit strictly above the cutoff whose query id cuts to that key, and holds that hit's identity and copy number |
| MashScreen2Json.FilteredHas | mashscreen2json.py:111-116 | every hit strictly above the cutoff is in the output under its cut query id, holding its own row unless a later kept query id cuts to the same key |
| MashScreen2Json.FilteredKeys | mashscreen2json.py:111-116 | the output keys are exactly the cut query ids of the hits strictly above the cutoff |
| MashScreen2Json.CopyNumberAtLeastOne | mashscreen2json.py:113-116 | with a positive cutoff a kept hit has copy number at least 1 |
| MashScreen2Json.RunScreen | mashscreen2json.py:78-118 | `main` before writing returns `ScreenJson`: first loop, median of all multiplicities, second loop |
| MashScreen2Json.ScreenJsonErrors | mashscreen2json.py:105-113 | no lines raise StatisticsError; a zero median with any line raises ZeroDivisionError |
| MashDist2Json.JsonName | mashdist2json.py:76 | the output file name always ends in ".json" |
| MashDist2Json.JsonNameOfPieces | mashdist2json.py:76 | for a path made of dot-free pieces joined by '.', the last piece is dropped and the others are joined with spaces before ".json" |
| MashDist2Json.JsonNameNoDot | mashdist2json.py:76 | a path without any '.' gives just ".json" |
| MashDist2Json.DistEntryOfColumns | mashdist2json.py:81-87 | a line of three or more tab-free columns is read column-wise: the key is the first three '_' fields of the stripped column 0, the value 1 minus the float of the stripped column 2, ValueError when that column is not a float |
| MashDist2Json.MasterDict | mashdist2json.py:79-87 | `master_dict` after the loop is a well-formed insertion-ordered dictionary |
| MashDist2Json.BuildMasterDict | mashdist2json.py:79-87 | the line loop returns exactly `MasterDict` of the lines, the error of the first failing line included |
| MashDist2Json.MasterDictEntries | mashdist2json.py:79-87 | the dictionary is built iff every line parses, else the first failing line's error is raised; its keys are exactly the accessions of the lines, ordered by first appearance, each holding its last line's value |
| Spades.SetKmers | spades.py:73-89 | "auto" gives five integer k values; any other option gives only string tokens; the list is empty iff the option is not "auto" and has at most one whitespace token |
| Spades.AutoListsWellFormed | spades.py:75-78 | both "auto" lists are strictly increasing, odd and below 128 |
| Spades.SetKmersAuto | spades.py:73-78 | for reads of 175 or more every k is at least 55; for shorter reads every k is at most 77 |
| Spades.SetKmersManualRoundTrip | spades.py:81-83 | the tokens of a manual option, joined with single spaces, give the same list again |
| Spades.KArgument | spades.py:128-129 | a `-k` argument exists iff the list is non-empty, and it starts with "-k " |
| Spades.KArgumentRoundTrip | spades.py:129 | splitting the argument after "-k " on ',' gives back the text of each k value when no value holds a comma |
| Spades.AutoTextsNoComma | spades.py:76-129 | the "auto" values never hold a comma, so the round trip applies to them |
| Spades.Texts | spades.py:129 | `str(x)` of each item: a token unchanged, an integer as its decimal text |
| Wrappers.MapResult | process_abricate.py:284-290 | a loop whose body may raise succeeds exactly when every item does, giving one value per item, and otherwise stops with the first failing item's error |
| Wrappers.MapResultStep | process_spades.py:379-388 | one more item extends the results by its value, or ends the loop with its error |
| Wrappers.FoldResultStops | assembly_report.py:104-117 | once a step has raised, later items are never reached |
| Wrappers.FoldResultStep | assembly_report.py:104-117 | one more iteration of a loop that threads a state and may raise |
| Wrappers.FoldResultInvariant | assembly_report.py:104-117 | a property every successful step preserves holds at the end of a successful loop |
| Numbers.DigitChar | process_spades.py:424 | the character of a digit is a digit with that value |
| Numbers.NatToStringDigits | trimmomatic_report.py:93 | `str(n)` of a non-negative integer is non-empty digits whose value is `n` |
| Numbers.NatToStringNoLeadingZero | trimmomatic_report.py:93 | `str(n)` has no leading zero except for zero itself |
| Numbers.IntToStringChars | assembly_report.py:183-185 | `str(n)` is non-empty, has no whitespace at its ends, and holds only digits and `-` |
| Numbers.ParseIntDigits | process_spades.py:466 | `int()` of plain digits is their value |
| Numbers.ParseIntNegDigits | process_spades.py:466 | `int()` of a minus sign and digits is their value negated |
| Numbers.ParseIntToString | process_abricate.py:164 | `int(str(n)) == n` for every integer |
| Numbers.FractionValue | process_abricate.py:148 | the digits after a decimal point are worth between 0 and 1 |
| Numbers.DecimalBodyOfDigits | process_abricate.py:148 | `float()` of plain digits is their value |
| Numbers.ParseRealOfInt | process_spades.py:229 | text that `int()` accepts, `float()` accepts with the same value |
| Numbers.RoundHalfEven | integrity_coverage.py:328 | `round()` lies within one half of its argument |
| Numbers.RoundHalfEvenBounds | integrity_coverage.py:328 | rounding stays inside any integer bounds around its argument |
| Numbers.Round2 | integrity_coverage.py:328 | `round(x, 2)` lies within 0.005 of `x` |
| Numbers.Trunc | mashscreen2json.py:113 | `int()` of a float truncates toward zero |
| Stats.InsertAsc | mashscreen2json.py:105 | inserting into an ascending list keeps it ascending and adds exactly that item |
| Stats.SortAsc | mashscreen2json.py:105 | `sorted()` is an ascending permutation of its input |
| Stats.CountInsert | mashscreen2json.py:105 | inserting an item changes the counts above and below a value only by that item |
| Stats.CountSort | mashscreen2json.py:105 | sorting does not change how many items lie above or below a value |
| Stats.CountAboveAfter | mashscreen2json.py:105 | in an ascending list only the items after one that is at most `m` can lie above `m` |
| Stats.CountBelowBefore | mashscreen2json.py:105 | in an ascending list only the items before one that is at least `m` can lie below `m` |
| Stats.Median | mashscreen2json.py:105 | `statistics.median` raises StatisticsError exactly on an empty list |
| Stats.MedianSplitsInHalves | mashscreen2json.py:105 | at most half the items lie strictly above the median and at most half strictly below it |
| Stats.SumSnoc | assembly_report.py:167 | the sum of one more item grows by that item |
| Stats.SumRealSnoc | assembly_report.py:171 | the same for floats |
| Stats.UnitRatio | assembly_report.py:159 | a ratio of a part to a positive whole lies in [0, 1] |
| Stats.SumRealUnitBounds | assembly_report.py:171 | a sum of items in [0, 1] lies between 0 and their count |
| Stats.SumNatItems | assembly_report.py:175-177 | a sum of naturals is non-negative and at least each item |
| Stats.SumPrefixes | assembly_report.py:176 | the running sum grows by the next item |
| Stats.SumSplit | assembly_report.py:175-177 | a sum splits around any item |
| Stats.InsertDesc | assembly_report.py:175 | inserting into a descending list keeps it descending and adds exactly that item |
| Stats.SortDesc | assembly_report.py:175 | `sorted(xs, reverse=True)` is a descending permutation of its input |
| Stats.SumInsertDesc | assembly_report.py:175 | inserting into the descending list adds the item to the sum |
| Stats.SumSortDesc | assembly_report.py:175 | sorting keeps the sum |
| Strings.LStrip | process_spades.py:208 | `lstrip()` removes a prefix and leaves no leading whitespace |
| Strings.RStrip | process_spades.py:208 | `rstrip()` keeps a prefix and leaves no trailing whitespace |
| Strings.StripBlank | process_spades.py:204-208 | `strip()` is empty exactly for a blank line, and otherwise starts and ends with a non-space |
| Strings.LStripBlank | process_spades.py:204 | `lstrip()` is empty exactly for a blank line |
| Strings.RStripBlank | process_spades.py:204 | `rstrip()` is empty exactly for a blank line |
| Strings.StripUntouched | process_spades.py:208 | a string with no whitespace at its ends is its own strip |
| Strings.Count | assembly_report.py:163 | `count(c)` never exceeds the length |
| Strings.CountZero | assembly_report.py:163 | the count is zero exactly when the character does not occur |
| Strings.CountAppend | assembly_report.py:159-163 | counting over a concatenation adds the counts |
| Strings.CountFour | process_spades.py:296-298 | counts of four distinct characters add up to at most the length |
| Strings.ConcatAppend | assembly_report.py:122 | `"".join` of a concatenation is the concatenation of the joins |
| Strings.JoinAppend | assembly_report.py:184 | joining two non-empty lists is joining the two joins with the separator |
| Strings.SplitOn | process_spades.py:229 | `split(c)` gives one piece more than there are separators |
| Strings.SplitOnPieces | process_spades.py:229 | no piece of `split(c)` holds the separator |
| Strings.JoinSplitOn | mashdist2json.py:82 | joining the pieces of `split(c)` with `c` gives the string back |
| Strings.SplitOnPiece | mashdist2json.py:82 | a separator-free first field splits off as the first piece |
| Strings.SplitOnNoSep | mashdist2json.py:82 | a string without the separator is one piece |
| Strings.SplitOnJoin | assembly_report.py:184 | splitting a join of separator-free pieces gives the pieces back |
| Strings.FirstFieldsPrefix | mashdist2json.py:82 | the leading fields joined again are a prefix of the text, and the whole text when it has at most that many fields |
| Strings.FirstFieldsJoin | mapping2json.py:99 | on separator-free fields, the leading `n` fields joined again are the first `n` of them |
| Strings.TokenEnd | fastqc_report.py:153 | the leading token ends at whitespace or at the end |
| Strings.TokenEndNoSpace | fastqc_report.py:153 | the leading token holds no whitespace |
| Strings.SplitWsTokens | mapping2json.py:98 | every token of `split()` is non-empty and free of whitespace |
| Strings.AllTokensCons | mapping2json.py:98 | a token followed by tokens is a token list |
| Strings.SplitWsFirst | mapping2json.py:98 | `split()` of a text starting with a token takes that token first |
| Strings.SplitWsLeadingSpace | mapping2json.py:98 | leading whitespace is ignored by `split()` |
| Strings.SplitWsJoin | fastqc_report.py:378 | splitting a space-joined list of tokens gives the tokens back |
| Strings.SplitWsToken | mapping2json.py:98 | a single token splits into itself |
| Strings.RStripChars | mapping2json.py:102 | `rstrip(chars)` keeps a prefix, and drops exactly a trailing run of characters from the set |
| OrderedDicts.ODict.Put | assembly_report.py:113 | `d[k] = v` keeps a present key's position and appends a new one, with the value replaced |
| OrderedDicts.ODict.Items | assembly_report.py:122 | `items()` lists the pairs in key order |
| OrderedDicts.ODict.Values | assembly_report.py:185 | `values()` lists the values in key order |
| OrderedDicts.PutPut | assembly_report.py:113 | a second assignment to a key replaces the first |
| OrderedDicts.Empty | assembly_report.py:73 | the empty dictionary |
| OrderedDicts.FromPairs | process_assembly_mapping.py:91-104 | assigning pairs in order gives a well-formed dictionary |
| OrderedDicts.FromPairsSnoc | process_assembly_mapping.py:100-104 | one more pair is one more assignment |
| OrderedDicts.FirstIndex | process_assembly_mapping.py:100-104 | the first position of a key, or the end when it is absent |
| OrderedDicts.FromPairsKeys | process_assembly_mapping.py:91-104 | the domain is exactly the keys that occur in the pairs |
| OrderedDicts.FromPairsFrom | process_assembly_mapping.py:91-104 | every entry is one of the pairs |
| OrderedDicts.FromPairsLast | process_assembly_mapping.py:91-104 | a key's value is that of its last pair |
| OrderedDicts.FromPairsOrder | process_assembly_mapping.py:91-104 | keys are listed in the order of their first occurrence |
| OrderedDicts.CollectPairs | mashscreen2json.py:86-100 | a loop that assigns the computed pairs gives a well-formed dictionary |
| OrderedDicts.CollectPairsStep | mashscreen2json.py:86-100 | one more iteration assigns one more pair, or ends the loop with its error |
| OrderedDicts.CollectPairsContents | mashscreen2json.py:86-100 | the loop succeeds exactly when every item does; its keys are the computed keys, each with the value computed last for it |
| OrderedDicts.CollectPairsKeyed | mashscreen2json.py:86-100 | the same when each item's key is a function of the item |
| OrderedDicts.PutWhere | mashscreen2json.py:111-116 | assigning the pairs of the kept items gives a well-formed dictionary |
| OrderedDicts.PutWhereKeys | mashscreen2json.py:111-116 | the domain is the set of keys computed from the kept items |
| OrderedDicts.PutWhereLast | mashscreen2json.py:111-116 | a kept item's value is the one its key holds unless a later kept item computes the same key |
| OrderedDicts.PutWhereFrom | mashscreen2json.py:111-116 | every entry was computed from a kept item |
| OrderedDicts.PutWhereStep | mashscreen2json.py:111-116 | one more item is assigned when kept and skipped otherwise |
| OrderedDicts.CollectKeptStep | mapping2json.py:106-114 | one more iteration of a loop that skips rejected items and assigns the pairs of the others |
| Lists.Filter | mapping2json.py:106-114 | a comprehension keeps at most the items it is given |
| Lists.FilterSnoc | mapping2json.py:106-114 | one more item is kept exactly when it passes |
| Lists.FilterAppend | process_abricate.py:267-305 | filtering a concatenation filters each part in turn, keeping the order |
| Lists.FilterMembers | process_abricate.py:267-305 | the comprehension holds exactly the items that pass |
| Lists.FilterPrefix | process_abricate.py:267-305 | the items kept from a prefix begin the items kept from the whole list |
| Lists.FilterKeys | mashscreen2json.py:111-116 | the keys of the kept items, by position, are the keys of the items that pass |
| Lists.Reverse | fastqc_report.py:165 | `xs[::-1]` has the items in reverse order |

## Left out

- Files, the gzip/bz2/zip readers, `os.rename`, `shutil.copy`, and the writing of `.status`, `.versions`, `.warnings` and `.report.json`. Inputs are sequences of lines (or a byte prefix); outputs are returned values or strings. JSON serialisation is not modelled.
- Lines are given without their terminating newline. One effect is not captured: in mashscreen2json.py:91, a line with exactly five tab-separated columns leaves the newline in `query_id`. `MashScreen2Json` never has it.
- Logging, `build_versions` and `utils/assemblerflow_base.py`: process-wide setup with no logic.
- The Nextflow `'$var'` placeholders at each script's top level. The parameters are taken as already substituted, and the template's `"\\n"` escapes as the newline they become.
- The external programs: `fastqc.py`, `trimmomatic.py`, `skesa.py`, `main` of spades.py (command line, `subprocess`, status and renaming), and the samtools calls of `filter_bam`. Only the contig list that `filter_bam` passes on is modelled.
- `main` of fastqc_report.py: it only reads the files and writes the results of the modelled functions.
- `pATLAS_consensus_json.py`: its `for` loop at lines 80-81 has no body, so there is no well-formed logic to model.
- Numbers.ParseReal: `float()` is modelled for decimal notation only: sign, digits, optional fraction. Exponents ("1e-05"), "inf", "nan" and underscores are rejected. Python accepts them, so where the model raises ValueError it would produce a number. In `ProcessAbricate.LineEntry` such a coverage or identity becomes None (process_abricate.py:148,152).
- Numbers.ParseInt: `int()` does not accept the underscores Python allows between digits.
- `str()` of a float is the parameter `showReal`: Python's shortest-repr text is not modelled. The same holds for the set iteration order behind the encoding and phred joins (integrity_coverage.py:312-318), which are the parameters `joinNames` and `joinPhreds`.
- Floats are exact reals. `Numbers.Round2`, the 80%/150% thresholds `ProcessSpades.T80`/`T150`, `ProcessSpades.ContigLimit`, the bias ratios of fastqc_report.py:155-161 and every division are computed without IEEE rounding.
- Mapping2Json.BasesCovered: the cutoff is taken as a real; the `float(cutoff)` conversion at mapping2json.py:113 is not modelled. `plasmid_length` is a given map; reading it from JSON is not modelled.
- IntegrityCoverage.GuessFileCompression: the `magic_dict` argument (integrity_coverage.py:122) is dropped; the function always uses `MAGIC_DICT`.
- IntegrityCoverage.IntegrityOf: the two FASTQ files are one chained line sequence, and an `eof` flag says whether the reader hit a truncated compressed stream (EOFError).
- IntegrityCoverage.IntegrityOf: the source writes the encoding and phred files (integrity_coverage.py:320-325) before `round(chars / (gsize * 1e6), 2)` raises ZeroDivisionError at line 328 for a zero genome size. The model returns only the error, not those partial writes.
- ProcessAbricate.Abricate.ParseFilesInto: `os.path.exists` is an `Option` per file (`None` for a missing file). The warning that is logged for a missing file is not modelled.
- ProcessAbricate.Abricate.GetFilter: `iter_filter` is a generator. The model gives the list `get_filter` makes of it, so an error is raised for the whole call rather than at the entry that reaches it.
- ProcessSpades.SpadesAssembly: `self.contigs` and `self.report` are dictionaries keyed by the ids 0, 1, 2, … in insertion order; they are sequences indexed by that id, and `contig_id` is the sequence length.
- Regular expressions: only the two fixed patterns are modelled, `length_(.+?)_` (process_assembly_mapping.py:101) and `.*_NODE_([0-9]*)_.*` (process_abricate.py:373-374), as string functions.
- Strings.IsSpace: Python's `str.isspace()` set is taken as given; there is no Unicode normalisation and no encoding. Text is a sequence of characters, and the first bytes of a file are a sequence of bytes.

## Findings

| source | as written | input that shows it | evidently intended | confidence | as-written member | corrected member |
|---|---|---|---|---|---|---|
| fastqc_report.py:164-171 | `biased[:int(len(biased))]` is the whole list and `biased[int(len(biased)):]` is empty. So the 3' trim is always the list length, and the 5' scan runs over the whole list. | biased = [F,F,F,T] gives (4, 4): every base trimmed from the 5' end and none from the 3' end | split at `len(biased) / 2`, as the comment at line 163 says; this gives (0, 3) | not executed | FastqcReport.TrimsAsWritten, FastqcReport.TrimsAsWrittenMissesThreeEnd | FastqcReport.Trims, FastqcReport.TrimsNone, FastqcReport.TrimsMirror |
| trimmomatic_report.py:135 | `log.rstrip("_trimlog.txt")` removes every trailing character from the set {_, t, r, i, m, l, o, g, ., x}, not the literal suffix | "cat_trimlog.txt" is filed under "ca" | remove the suffix "_trimlog.txt", filing the log under "cat" | not executed | TrimmomaticReport.SampleIdAsWritten, TrimmomaticReport.CatLogCut, TrimmomaticReport.SampleIdAsWrittenCutsName | TrimmomaticReport.SampleId, TrimmomaticReport.SampleIdOfLog |

The script-level members model the code as written: `FastqcReport.TrimRangeOf`, `FastqcReport.TrimRange` and `FastqcReport.GetSampleTrim` use `TrimsAsWritten`, and `TrimmomaticReport.LogKey` and `TrimmomaticReport.RunReport` use `SampleIdAsWritten`. The corrected definitions sit beside them, with their intended properties proved.
