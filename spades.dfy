/** The k-mer choice of the SPAdes wrapper (spades.py): which k values are
    handed to the assembler, and the `-k` argument built from them. */
module Spades {
  import opened Wrappers
  import opened Strings
  import opened Numbers

  /** An item of the returned list: the "auto" lists hold integers, a
      manual option yields its whitespace tokens as strings. */
  datatype Kmer = K(n: int) | Tok(s: string)

  /** Lists chosen by "auto" for long (>= 175) and short reads. */
  const LongReadKmers: seq<int> := [55, 77, 99, 113, 127]
  const ShortReadKmers: seq<int> := [21, 33, 55, 67, 77]

  predicate StrictlyIncreasing(xs: seq<int>) {
    forall i, j :: 0 <= i < j < |xs| ==> xs[i] < xs[j]
  }

  /** Usable SPAdes k values: odd and below 128. */
  predicate OddBelow128(xs: seq<int>) {
    forall i :: 0 <= i < |xs| ==> xs[i] % 2 == 1 && 0 < xs[i] < 128
  }

  function Ints(xs: seq<int>): (r: seq<Kmer>)
    ensures |r| == |xs| && forall i :: 0 <= i < |xs| ==> r[i] == K(xs[i])
  {
    if xs == [] then [] else [K(xs[0])] + Ints(xs[1..])
  }

  function Toks(xs: seq<string>): (r: seq<Kmer>)
    ensures |r| == |xs| && forall i :: 0 <= i < |xs| ==> r[i] == Tok(xs[i])
  {
    if xs == [] then [] else [Tok(xs[0])] + Toks(xs[1..])
  }

  /** `str(x)` of each item. */
  function Texts(ks: seq<Kmer>): (r: seq<string>)
    ensures |r| == |ks|
    ensures forall i :: 0 <= i < |ks| && ks[i].Tok? ==> r[i] == ks[i].s
    ensures forall i :: 0 <= i < |ks| && ks[i].K? ==> r[i] == IntToString(ks[i].n)
  {
    if ks == [] then []
    else [match ks[0] case K(n) => IntToString(n) case Tok(s) => s] + Texts(ks[1..])
  }

  /** `set_kmers(kmer_opt, max_read_len)`. */
  function SetKmers(opt: string, maxReadLen: int): (r: seq<Kmer>)
    ensures opt == "auto" ==> |r| == 5 && forall i :: 0 <= i < 5 ==> r[i].K?
    ensures opt != "auto" ==> forall i :: 0 <= i < |r| ==> r[i].Tok?
    ensures r == [] <==> opt != "auto" && |SplitWs(opt)| <= 1
  {
    if opt == "auto" then
      if maxReadLen >= 175 then Ints(LongReadKmers) else Ints(ShortReadKmers)
    else if |SplitWs(opt)| > 1 then Toks(SplitWs(opt))
    else []
  }

  /** Both "auto" lists are strictly increasing odd k values below 128. */
  lemma AutoListsWellFormed()
    ensures StrictlyIncreasing(LongReadKmers) && OddBelow128(LongReadKmers)
    ensures StrictlyIncreasing(ShortReadKmers) && OddBelow128(ShortReadKmers)
  {
  }

  /** "auto" picks the list by read length: every k is at least 55 for long
      reads, and the largest is 77 for short ones. */
  lemma {:induction false} SetKmersAuto(maxReadLen: int)
    ensures maxReadLen >= 175 ==> forall i :: 0 <= i < 5 ==> SetKmers("auto", maxReadLen)[i].n >= 55
    ensures maxReadLen < 175 ==> forall i :: 0 <= i < 5 ==> SetKmers("auto", maxReadLen)[i].n <= 77
  {
    var r := SetKmers("auto", maxReadLen);
    if maxReadLen >= 175 {
      assert r == Ints(LongReadKmers);
    } else {
      assert r == Ints(ShortReadKmers);
    }
  }

  /** A manual option's tokens, written back with single spaces, give the
      same list again. */
  lemma {:induction false} SetKmersManualRoundTrip(opt: string, maxReadLen: int)
    requires opt != "auto" && SetKmers(opt, maxReadLen) != []
    ensures SetKmers(Join(Texts(SetKmers(opt, maxReadLen)), " "), maxReadLen) == SetKmers(opt, maxReadLen)
  {
    var toks := SplitWs(opt);
    var r := SetKmers(opt, maxReadLen);
    assert r == Toks(toks);
    assert Texts(r) == toks;
    SplitWsTokens(opt);
    assert AllTokens(toks);
    SplitWsJoin(toks);
    var again := Join(toks, " ");
    JoinAppend([toks[0]], toks[1..], " ");
    assert [toks[0]] + toks[1..] == toks;
    assert again[|toks[0]|] == ' ';
    assert again != "auto";
  }

  /** The `-k` argument: present iff the list is non-empty. */
  function KArgument(ks: seq<Kmer>): (r: Option<string>)
    ensures r.Some? <==> ks != []
    ensures r.Some? ==> StartsWith(r.value, "-k ")
  {
    if ks != [] then Some("-k " + Join(Texts(ks), ",")) else None
  }

  /** The comma-joined values split back into the list's texts whenever no
      text holds a comma (always the case for "auto"). */
  lemma {:induction false} KArgumentRoundTrip(ks: seq<Kmer>)
    requires ks != []
    requires forall i :: 0 <= i < |ks| ==> ',' !in Texts(ks)[i]
    ensures SplitOn(KArgument(ks).value[3..], ',') == Texts(ks)
  {
    var arg := KArgument(ks).value;
    assert arg[3..] == Join(Texts(ks), ",");
    SplitOnJoin(Texts(ks), ',');
  }

  lemma {:induction false} AutoTextsNoComma(maxReadLen: int)
    ensures forall i :: 0 <= i < |SetKmers("auto", maxReadLen)| ==>
      ',' !in Texts(SetKmers("auto", maxReadLen))[i]
  {
    var ks := SetKmers("auto", maxReadLen);
    forall i | 0 <= i < |ks| ensures ',' !in Texts(ks)[i] {
      IntToStringChars(ks[i].n);
    }
  }
}
