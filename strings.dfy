/** Python's `str` operations as the scripts use them: strip, split, join,
    startswith, count, rstrip over a character set, and substring tests.
    Strings are sequences of characters; no encoding is involved. */
module Strings {

  /** The characters Python's `str.isspace()` accepts, which are the ones
      `strip()` removes and `split()` splits on. */
  predicate IsSpace(c: char) {
    || c == ' '
    || ('\t' <= c <= '\r')
    || ('\U{1c}' <= c <= '\U{1f}')
    || c == '\U{85}' || c == '\U{a0}' || c == '\U{1680}'
    || ('\U{2000}' <= c <= '\U{200a}')
    || c == '\U{2028}' || c == '\U{2029}' || c == '\U{202f}'
    || c == '\U{205f}' || c == '\U{3000}'
  }

  /** `not s.strip()`: the string holds only whitespace. */
  predicate IsBlank(s: string) {
    forall i :: 0 <= i < |s| ==> IsSpace(s[i])
  }

  predicate NoSpace(s: string) {
    forall i :: 0 <= i < |s| ==> !IsSpace(s[i])
  }

  /** `s.lstrip()` */
  function LStrip(s: string): (r: string)
    ensures |r| <= |s| && r == s[|s| - |r|..]
    ensures r == [] || !IsSpace(r[0])
  {
    if |s| > 0 && IsSpace(s[0]) then
      LStrip(s[1..])
    else s
  }

  /** `s.rstrip()` */
  function RStrip(s: string): (r: string)
    ensures |r| <= |s| && r == s[..|r|]
    ensures r == [] || !IsSpace(r[|r| - 1])
  {
    if |s| > 0 && IsSpace(s[|s| - 1]) then
      RStrip(s[..|s| - 1])
    else s
  }

  /** `s.strip()` */
  function Strip(s: string): string {
    RStrip(LStrip(s))
  }

  /** `s.strip()` is empty exactly when `s` is blank, and otherwise starts
      and ends with a non-space. */
  lemma StripBlank(s: string)
    ensures Strip(s) == [] <==> IsBlank(s)
    ensures Strip(s) != [] ==> !IsSpace(Strip(s)[0]) && !IsSpace(Strip(s)[|Strip(s)| - 1])
  {
    var l := LStrip(s);
    LStripBlank(s);
    RStripBlank(l);
    assert IsBlank(l) ==> l == [];
    var r := RStrip(l);
    assert r != [] ==> r[0] == l[0];
  }

  lemma {:induction false} LStripBlank(s: string)
    ensures LStrip(s) == [] <==> IsBlank(s)
  {
    if |s| > 0 && IsSpace(s[0]) {
      LStripBlank(s[1..]);
      assert IsBlank(s) <==> IsBlank(s[1..]) by {
        assert forall k :: 0 < k < |s| ==> s[k] == s[1..][k - 1];
      }
    }
  }

  lemma {:induction false} RStripBlank(s: string)
    ensures RStrip(s) == [] <==> IsBlank(s)
  {
    if |s| > 0 && IsSpace(s[|s| - 1]) {
      var t := s[..|s| - 1];
      RStripBlank(t);
      assert IsBlank(s) <==> IsBlank(t) by {
        assert forall k :: 0 <= k < |t| ==> s[k] == t[k];
      }
    }
  }

  /** A string with no whitespace at either end is its own strip. */
  lemma StripUntouched(s: string)
    requires s != [] && !IsSpace(s[0]) && !IsSpace(s[|s| - 1])
    ensures Strip(s) == s
  {
    assert LStrip(s) == s;
    assert RStrip(s) == s;
  }

  /** `s.startswith(p)` */
  predicate StartsWith(s: string, p: string) {
    |p| <= |s| && s[..|p|] == p
  }

  /** `sub in s` for strings: `sub` occurs somewhere in `s`. */
  predicate Contains(s: string, sub: string) {
    StartsWith(s, sub) || (|s| > 0 && Contains(s[1..], sub))
  }

  /** `s.count(c)` for a one-character argument. */
  function Count(s: string, c: char): (n: nat)
    ensures n <= |s|
  {
    if |s| == 0 then 0 else Count(s[1..], c) + (if s[0] == c then 1 else 0)
  }

  /** The count is zero exactly when the character does not occur. */
  lemma {:induction false} CountZero(s: string, c: char)
    ensures Count(s, c) == 0 <==> c !in s
  {
    if |s| > 0 {
      CountZero(s[1..], c);
      assert s == [s[0]] + s[1..];
    }
  }

  lemma {:induction false} CountAppend(a: string, b: string, c: char)
    ensures Count(a + b, c) == Count(a, c) + Count(b, c)
  {
    if |a| > 0 {
      assert (a + b)[1..] == a[1..] + b;
      CountAppend(a[1..], b, c);
    } else {
      assert a + b == b;
    }
  }

  /** Counts of four distinct characters never add up to more than the
      string's length. */
  lemma {:induction false} CountFour(s: string, a: char, b: char, c: char, d: char)
    requires a != b && a != c && a != d && b != c && b != d && c != d
    ensures Count(s, a) + Count(s, b) + Count(s, c) + Count(s, d) <= |s|
  {
    if |s| > 0 {
      CountFour(s[1..], a, b, c, d);
    }
  }

  /** `sep.join(xs)` */
  function Join(xs: seq<string>, sep: string): string {
    if |xs| == 0 then ""
    else if |xs| == 1 then xs[0]
    else xs[0] + sep + Join(xs[1..], sep)
  }

  /** `"".join(xs)` */
  function Concat(xs: seq<string>): string {
    if |xs| == 0 then "" else xs[0] + Concat(xs[1..])
  }

  lemma {:induction false} ConcatAppend(xs: seq<string>, ys: seq<string>)
    ensures Concat(xs + ys) == Concat(xs) + Concat(ys)
  {
    if |xs| == 0 {
      assert xs + ys == ys;
    } else {
      assert (xs + ys)[1..] == xs[1..] + ys;
      ConcatAppend(xs[1..], ys);
    }
  }

  /** Joining two non-empty lists is joining the two joins. */
  lemma {:induction false} JoinAppend(xs: seq<string>, ys: seq<string>, sep: string)
    requires |xs| > 0 && |ys| > 0
    ensures Join(xs + ys, sep) == Join(xs, sep) + sep + Join(ys, sep)
  {
    if |xs| > 1 {
      assert (xs + ys)[1..] == xs[1..] + ys;
      JoinAppend(xs[1..], ys, sep);
    } else {
      assert (xs + ys)[1..] == ys;
    }
  }

  /** `s.split(c)` for a one-character separator: one piece more than there
      are separators. */
  function SplitOn(s: string, c: char): (r: seq<string>)
    ensures |r| == Count(s, c) + 1
  {
    if |s| == 0 then [""]
    else
      var rest := SplitOn(s[1..], c);
      if s[0] == c then [""] + rest
      else [[s[0]] + rest[0]] + rest[1..]
  }

  /** No piece of `s.split(c)` holds the separator. */
  lemma {:induction false} SplitOnPieces(s: string, c: char)
    ensures forall i :: 0 <= i < |SplitOn(s, c)| ==> c !in SplitOn(s, c)[i]
  {
    if |s| > 0 {
      SplitOnPieces(s[1..], c);
      var rest := SplitOn(s[1..], c);
      if s[0] != c {
        assert c !in [s[0]] + rest[0];
      }
    }
  }

  /** Joining the pieces with the separator gives the string back. */
  lemma {:induction false} JoinSplitOn(s: string, c: char)
    ensures Join(SplitOn(s, c), [c]) == s
  {
    if |s| > 0 {
      JoinSplitOn(s[1..], c);
      var rest := SplitOn(s[1..], c);
      if s[0] == c {
        assert SplitOn(s, c) == [""] + rest;
        assert ([""] + rest)[1..] == rest;
      } else {
        var r := SplitOn(s, c);
        assert r[0] == [s[0]] + rest[0] && r[1..] == rest[1..];
        if |rest| > 1 {
          assert Join(rest, [c]) == rest[0] + [c] + Join(rest[1..], [c]);
        }
      }
    }
  }

  lemma {:induction false} SplitOnPiece(x: string, rest: string, c: char)
    requires c !in x
    ensures SplitOn(x + [c] + rest, c) == [x] + SplitOn(rest, c)
  {
    if |x| == 0 {
      assert x + [c] + rest == [c] + rest;
      assert ([c] + rest)[1..] == rest;
    } else {
      var s := x + [c] + rest;
      assert s[0] == x[0] && s[1..] == x[1..] + [c] + rest;
      SplitOnPiece(x[1..], rest, c);
      assert [x[0]] + x[1..] == x;
    }
  }

  lemma {:induction false} SplitOnNoSep(x: string, c: char)
    requires c !in x
    ensures SplitOn(x, c) == [x]
  {
    if |x| > 0 {
      SplitOnNoSep(x[1..], c);
      assert [x[0]] + x[1..] == x;
    }
  }

  /** Splitting a join of separator-free pieces gives the pieces back. */
  lemma {:induction false} SplitOnJoin(xs: seq<string>, c: char)
    requires |xs| > 0
    requires forall i :: 0 <= i < |xs| ==> c !in xs[i]
    ensures SplitOn(Join(xs, [c]), c) == xs
  {
    if |xs| == 1 {
      SplitOnNoSep(xs[0], c);
    } else {
      SplitOnJoin(xs[1..], c);
      SplitOnPiece(xs[0], Join(xs[1..], [c]), c);
      assert [xs[0]] + xs[1..] == xs;
    }
  }

  /** `sep.join(s.split(sep)[0:n])`: the leading `n` separated fields. */
  function FirstFields(s: string, c: char, n: nat): string {
    var pieces := SplitOn(s, c);
    Join(pieces[..if n < |pieces| then n else |pieces|], [c])
  }

  /** The leading fields are a prefix of the text, and the whole text when
      it has at most `n` fields. */
  lemma FirstFieldsPrefix(s: string, c: char, n: nat)
    requires n > 0
    ensures StartsWith(s, FirstFields(s, c, n))
    ensures Count(s, c) < n ==> FirstFields(s, c, n) == s
  {
    var pieces := SplitOn(s, c);
    var k := if n < |pieces| then n else |pieces|;
    JoinSplitOn(s, c);
    if k < |pieces| {
      JoinAppend(pieces[..k], pieces[k..], [c]);
      assert pieces[..k] + pieces[k..] == pieces;
    } else {
      assert pieces[..k] == pieces;
    }
  }

  /** On a text made of separator-free fields, the first `n` of them
      joined again. */
  lemma FirstFieldsJoin(pieces: seq<string>, c: char, n: nat)
    requires |pieces| > 0
    requires forall i :: 0 <= i < |pieces| ==> c !in pieces[i]
    ensures FirstFields(Join(pieces, [c]), c, n) == Join(pieces[..if n < |pieces| then n else |pieces|], [c])
  {
    SplitOnJoin(pieces, c);
  }

  /** Length of the leading run of non-whitespace characters. */
  function TokenEnd(t: string): (k: nat)
    ensures k <= |t|
    ensures k == |t| || IsSpace(t[k])
  {
    if |t| == 0 || IsSpace(t[0]) then 0 else 1 + TokenEnd(t[1..])
  }

  /** That run holds no whitespace. */
  lemma {:induction false} TokenEndNoSpace(t: string)
    ensures NoSpace(t[..TokenEnd(t)])
    decreases |t|
  {
    if |t| > 0 && !IsSpace(t[0]) {
      var k := TokenEnd(t);
      TokenEndNoSpace(t[1..]);
      assert t[..k] == [t[0]] + t[1..][..k - 1];
    }
  }

  /** `s.split()`: the maximal runs of non-whitespace characters, leading,
      trailing and repeated whitespace ignored. */
  function SplitWs(s: string): seq<string>
    decreases |s|
  {
    if s == [] then []
    else if IsSpace(s[0]) then SplitWs(s[1..])
    else
      var k := TokenEnd(s);
      [s[..k]] + SplitWs(s[k..])
  }

  /** Every token of `s.split()` is non-empty and free of whitespace. */
  lemma {:induction false} SplitWsTokens(s: string)
    ensures AllTokens(SplitWs(s))
    decreases |s|
  {
    if s != [] {
      if IsSpace(s[0]) {
        SplitWsTokens(s[1..]);
      } else {
        var k := TokenEnd(s);
        TokenEndNoSpace(s);
        SplitWsTokens(s[k..]);
        AllTokensCons(s[..k], SplitWs(s[k..]));
      }
    }
  }

  lemma AllTokensCons(x: string, rest: seq<string>)
    requires x != [] && NoSpace(x) && AllTokens(rest)
    ensures AllTokens([x] + rest)
  {
    forall i | 0 < i < |rest| + 1 ensures ([x] + rest)[i] == rest[i - 1] { }
  }

  /** `s.split()` when `s` starts with a token of length `k` followed by
      whitespace or the end of the string. */
  lemma SplitWsFirst(s: string, k: nat)
    requires 0 < k <= |s| && NoSpace(s[..k])
    requires k == |s| || IsSpace(s[k])
    ensures SplitWs(s) == [s[..k]] + SplitWs(s[k..])
  {
    assert !IsSpace(s[..k][0]);
    TokenEndOf(s, k);
  }

  lemma SplitWsLeadingSpace(u: string)
    requires u != [] && IsSpace(u[0])
    ensures SplitWs(u) == SplitWs(u[1..])
  {
  }

  /** Every element is a non-empty run of non-whitespace characters. */
  predicate AllTokens(xs: seq<string>) {
    forall i :: 0 <= i < |xs| ==> xs[i] != [] && NoSpace(xs[i])
  }

  /** Splitting a space-joined list of tokens gives the tokens back. */
  lemma {:induction false} SplitWsJoin(xs: seq<string>)
    requires AllTokens(xs)
    ensures SplitWs(Join(xs, " ")) == xs
  {
    if |xs| <= 1 {
      SplitWsShort(xs);
    } else {
      assert AllTokens(xs[1..]) by {
        forall i | 0 <= i < |xs| - 1 ensures xs[1..][i] == xs[i + 1] { }
      }
      SplitWsJoin(xs[1..]);
      SplitWsJoinCons(xs);
    }
  }

  lemma SplitWsJoinCons(xs: seq<string>)
    requires |xs| > 1 && xs[0] != [] && NoSpace(xs[0])
    requires SplitWs(Join(xs[1..], " ")) == xs[1..]
    ensures SplitWs(Join(xs, " ")) == xs
  {
    JoinCons(xs, " ");
    SplitWsJoinStep(xs[0], Join(xs[1..], " "), xs[1..]);
    HeadTail(xs);
  }

  /** The join of two or more items: the first, then the separator and the
      join of the rest. */
  lemma JoinCons(xs: seq<string>, sep: string)
    requires |xs| > 1
    ensures Join(xs, sep) == xs[0] + (sep + Join(xs[1..], sep))
  {
    assert Join(xs, sep) == (xs[0] + sep) + Join(xs[1..], sep);
  }

  lemma HeadTail<T>(xs: seq<T>)
    requires xs != []
    ensures [xs[0]] + xs[1..] == xs
  {
  }

  lemma SplitWsJoinStep(x: string, rest: string, tail: seq<string>)
    requires x != [] && NoSpace(x)
    requires SplitWs(rest) == tail
    ensures SplitWs(x + (" " + rest)) == [x] + tail
  {
    var s := x + (" " + rest);
    assert s[..|x|] == x;
    SplitWsFirst(s, |x|);
    assert s[|x|..] == " " + rest;
    SplitWsLeadingSpace(" " + rest);
    assert (" " + rest)[1..] == rest;
  }

  lemma SplitWsShort(xs: seq<string>)
    requires |xs| <= 1 && AllTokens(xs)
    ensures SplitWs(Join(xs, " ")) == xs
  {
    if |xs| == 0 {
      SplitWsEmpty();
      assert xs == [];
    } else {
      SplitWsSingle(xs[0]);
      assert xs == [xs[0]];
    }
  }

  lemma SplitWsEmpty()
    ensures SplitWs(Join([], " ")) == []
  {
  }

  lemma SplitWsSingle(x: string)
    requires x != [] && NoSpace(x)
    ensures SplitWs(Join([x], " ")) == [x]
  {
    assert Join([x], " ") == x;
    SplitWsToken(x);
  }

  /** A single token splits into itself. */
  lemma SplitWsToken(x: string)
    requires x != [] && NoSpace(x)
    ensures SplitWs(x) == [x]
  {
    assert x[..|x|] == x;
    SplitWsFirst(x, |x|);
    assert x[|x|..] == [];
  }

  lemma {:induction false} TokenEndOf(t: string, k: nat)
    requires k <= |t| && NoSpace(t[..k])
    requires k == |t| || IsSpace(t[k])
    ensures TokenEnd(t) == k
  {
    if k > 0 {
      assert t[1..][..k - 1] == t[..k][1..];
      assert !IsSpace(t[..k][0]);
      TokenEndOf(t[1..], k - 1);
    }
  }

  /** `s.rstrip(chars)`: drops trailing characters that belong to the set
      `cs`, whatever their order; it does not remove a literal suffix. */
  function RStripChars(s: string, cs: set<char>): (r: string)
    ensures |r| <= |s| && r == s[..|r|]
    ensures forall i :: |r| <= i < |s| ==> s[i] in cs
    ensures r == [] || r[|r| - 1] !in cs
  {
    if |s| > 0 && s[|s| - 1] in cs then RStripChars(s[..|s| - 1], cs) else s
  }
}
