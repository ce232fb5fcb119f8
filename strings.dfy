/**
 String operations of the JavaScript runtime that the modelled code relies on:
 `indexOf`, `split` on a one-character separator, `replace` of the first
 occurrence of a substring, and the decimal rendering and parsing of numbers.
 */
module Strings {
  import opened Wrappers

  /** `pat` occurs in `s` starting at index `j`. */
  predicate OccursAt(s: string, pat: string, j: nat) {
    j + |pat| <= |s| && s[j..j + |pat|] == pat
  }

  /** `s` contains `pat` somewhere. */
  predicate Contains(s: string, pat: string) {
    exists j: nat :: j <= |s| && OccursAt(s, pat, j)
  }

  function IndexOfFrom(s: string, pat: string, from: nat): (r: int)
    ensures r == -1 || (from <= r && OccursAt(s, pat, r))
    ensures r != -1 ==> forall j: nat :: from <= j < r ==> !OccursAt(s, pat, j)
    ensures r == -1 ==> forall j: nat :: from <= j ==> !OccursAt(s, pat, j)
    decreases |s| - from
  {
    if from + |pat| > |s| then -1
    else if OccursAt(s, pat, from) then from
    else IndexOfFrom(s, pat, from + 1)
  }

  /** `String.prototype.indexOf`: the first index where `pat` occurs, or -1. */
  function IndexOf(s: string, pat: string): (r: int)
    ensures r >= -1
    ensures r == -1 <==> !Contains(s, pat)
    ensures r >= 0 ==> OccursAt(s, pat, r) && forall j: nat :: j < r ==> !OccursAt(s, pat, j)
  {
    IndexOfFrom(s, pat, 0)
  }

  /** `s.indexOf(pat) === 0` holds exactly when `pat` is a prefix of `s`. */
  lemma IndexOfZeroIffPrefix(s: string, pat: string)
    ensures IndexOf(s, pat) == 0 <==> pat <= s
  {
    if pat <= s {
      assert s[0..|pat|] == pat;
      assert OccursAt(s, pat, 0);
    }
  }

  /** In `a + c + b` where `a` has no `c`, the first `c` is the one after `a`. */
  lemma IndexOfFirstChar(a: string, c: char, b: string)
    requires c !in a
    ensures IndexOf(a + [c] + b, [c]) == |a|
  {
    var s := a + [c] + b;
    assert s[|a|..|a| + 1] == [c];
    assert OccursAt(s, [c], |a|);
    var r := IndexOf(s, [c]);
    assert s[r..r + 1] == [c];
    assert s[r] == c;
    assert forall j :: 0 <= j < |a| ==> s[j] == a[j];
  }

  /** A character that does not occur in `s` is not found. */
  lemma IndexOfAbsentChar(s: string, c: char)
    requires c !in s
    ensures IndexOf(s, [c]) == -1
  {
    forall j: nat | j <= |s| ensures !OccursAt(s, [c], j) {
      if j < |s| {
        assert s[j..j + 1][0] == s[j];
      }
    }
  }

  /**
   `s.replace(pat, rep)` with a string pattern: only the first occurrence is
   replaced. (`$` patterns in the replacement are not interpreted.)
   */
  function ReplaceFirst(s: string, pat: string, rep: string): (r: string)
    ensures !Contains(s, pat) ==> r == s
    ensures Contains(s, pat) ==> OccursAt(r, rep, IndexOf(s, pat))
    ensures Contains(s, pat) ==> |r| == |s| - |pat| + |rep|
    ensures Contains(s, pat) ==>
              var i := IndexOf(s, pat);
              r[..i] == s[..i] && r[i + |rep|..] == s[i + |pat|..]
  {
    var i := IndexOf(s, pat);
    if i < 0 then s
    else
      var r := s[..i] + rep + s[i + |pat|..];
      assert r[i..i + |rep|] == rep;
      r
  }

  /** The result is the text before the first `pat`, then `rep`, then the text after that `pat`. */
  lemma ReplaceFirstSplice(s: string, pat: string, rep: string)
    requires Contains(s, pat)
    ensures var i := IndexOf(s, pat);
            ReplaceFirst(s, pat, rep) == s[..i] + rep + s[i + |pat|..]
  {
    var i := IndexOf(s, pat);
    var r := ReplaceFirst(s, pat, rep);
    assert r == r[..i] + r[i..i + |rep|] + r[i + |rep|..];
  }

  /** After replacing the first `pat` by `rep`, `rep` occurs in the result. */
  lemma ReplaceFirstContains(s: string, pat: string, rep: string)
    requires Contains(s, pat)
    ensures Contains(ReplaceFirst(s, pat, rep), rep)
  {
    assert OccursAt(ReplaceFirst(s, pat, rep), rep, IndexOf(s, pat));
  }

  /** `s.split(c)` for a one-character separator `c`. */
  function Split(s: string, c: char): (r: seq<string>)
    ensures |r| >= 1
  {
    if |s| == 0 then [""]
    else if s[0] == c then [""] + Split(s[1..], c)
    else
      var rest := Split(s[1..], c);
      [[s[0]] + rest[0]] + rest[1..]
  }

  /** `xs.join(c)` for a one-character separator `c`. */
  function Join(xs: seq<string>, c: char): string {
    if |xs| == 0 then ""
    else if |xs| == 1 then xs[0]
    else xs[0] + [c] + Join(xs[1..], c)
  }

  /** `str.split(sep)` on a string; `split(undefined)` returns the whole string. */
  function SplitBy(s: string, sep: Option<char>): seq<string> {
    match sep
    case Some(c) => Split(s, c)
    case None => [s]
  }

  /** No piece returned by `Split` contains the separator. */
  lemma {:induction false} SplitPiecesFree(s: string, c: char)
    ensures forall i :: 0 <= i < |Split(s, c)| ==> c !in Split(s, c)[i]
  {
    if |s| > 0 {
      SplitPiecesFree(s[1..], c);
    }
  }

  /** Splitting a string without the separator yields that string alone. */
  lemma {:induction false} SplitFree(a: string, c: char)
    requires c !in a
    ensures Split(a, c) == [a]
  {
    if |a| > 0 {
      assert a[0] != c && c !in a[1..];
      SplitFree(a[1..], c);
      assert [a[0]] + a[1..] == a;
    }
  }

  /** Splitting two strings glued by one separator splits each part. */
  lemma {:induction false} SplitAround(a: string, b: string, c: char)
    ensures Split(a + [c] + b, c) == Split(a, c) + Split(b, c)
  {
    if |a| == 0 {
      assert a + [c] + b == [c] + b;
      assert ([c] + b)[1..] == b;
    } else {
      assert (a + [c] + b)[1..] == a[1..] + [c] + b;
      SplitAround(a[1..], b, c);
    }
  }

  /** A trailing separator adds exactly one empty piece. */
  lemma SplitTrailing(a: string, c: char)
    ensures Split(a + [c], c) == Split(a, c) + [""]
  {
    SplitAround(a, "", c);
    assert a + [c] + "" == a + [c];
  }

  /** Splitting undoes joining, for a non-empty list of separator-free pieces. */
  lemma {:induction false} SplitJoin(xs: seq<string>, c: char)
    requires |xs| >= 1
    requires forall i :: 0 <= i < |xs| ==> c !in xs[i]
    ensures Split(Join(xs, c), c) == xs
  {
    if |xs| == 1 {
      SplitFree(xs[0], c);
    } else {
      SplitJoin(xs[1..], c);
      SplitAround(xs[0], Join(xs[1..], c), c);
      SplitFree(xs[0], c);
      assert [xs[0]] + xs[1..] == xs;
    }
  }

  /** The pieces of `split`, with the empty ones dropped (`.filter(el => el)`). */
  function NonEmpty(xs: seq<string>): (r: seq<string>)
    ensures forall i :: 0 <= i < |r| ==> r[i] != ""
    ensures |r| <= |xs|
  {
    if |xs| == 0 then []
    else if xs[0] == "" then NonEmpty(xs[1..])
    else [xs[0]] + NonEmpty(xs[1..])
  }

  /** Every piece `NonEmpty` keeps is one of its inputs. */
  lemma {:induction false} NonEmptyFrom(xs: seq<string>)
    ensures forall i :: 0 <= i < |NonEmpty(xs)| ==> NonEmpty(xs)[i] in xs
  {
    if |xs| > 0 {
      NonEmptyFrom(xs[1..]);
      assert forall x :: x in xs[1..] ==> x in xs;
    }
  }

  lemma {:induction false} NonEmptyAppend(xs: seq<string>, ys: seq<string>)
    ensures NonEmpty(xs + ys) == NonEmpty(xs) + NonEmpty(ys)
  {
    if |xs| == 0 {
      assert xs + ys == ys;
    } else {
      assert (xs + ys)[1..] == xs[1..] + ys;
      NonEmptyAppend(xs[1..], ys);
    }
  }

  lemma {:induction false} NonEmptyKeeps(xs: seq<string>)
    requires forall i :: 0 <= i < |xs| ==> xs[i] != ""
    ensures NonEmpty(xs) == xs
  {
    if |xs| > 0 {
      NonEmptyKeeps(xs[1..]);
      assert [xs[0]] + xs[1..] == xs;
    }
  }

  // ---------------------------------------------------------------------
  // Decimal numbers

  predicate IsDigit(ch: char) { '0' <= ch <= '9' }

  predicate AllDigits(s: string) {
    forall i :: 0 <= i < |s| ==> IsDigit(s[i])
  }

  function DigitChar(d: nat): (ch: char)
    requires d < 10
    ensures IsDigit(ch) && ch as int - '0' as int == d
  {
    ('0' as int + d) as char
  }

  /** The value of a string of decimal digits. */
  function DigitsValue(s: string): nat
    requires AllDigits(s)
  {
    if |s| == 0 then 0
    else DigitsValue(s[..|s| - 1]) * 10 + (s[|s| - 1] as int - '0' as int)
  }

  /** The decimal rendering of a natural number, as `String(n)` writes it. */
  function NatToString(n: nat): (r: string)
    ensures |r| >= 1 && AllDigits(r)
    ensures r[0] == '0' ==> n == 0 && r == "0"
  {
    if n < 10 then [DigitChar(n)]
    else NatToString(n / 10) + [DigitChar(n % 10)]
  }

  /** The decimal rendering of an integer, with a leading `-` when negative. */
  function IntToString(n: int): string {
    if n < 0 then "-" + NatToString(-n) else NatToString(n)
  }

  /** A canonical array index: decimal digits without a leading zero. */
  predicate IsCanonicalIndex(k: string) {
    |k| >= 1 && IsDigit(k[0]) && AllDigits(k) && (k[0] == '0' ==> |k| == 1)
  }

  /** The array index a property key names, if any. */
  function IndexKey(k: string): (r: Option<nat>)
    ensures r.Some? <==> IsCanonicalIndex(k)
  {
    if IsCanonicalIndex(k) then Some(DigitsValue(k)) else None
  }

  /** Rendering and then reading back an index gives the index. */
  lemma {:induction false} NatToStringValue(n: nat)
    ensures DigitsValue(NatToString(n)) == n
  {
    if n >= 10 {
      NatToStringValue(n / 10);
      var s := NatToString(n);
      assert s[..|s| - 1] == NatToString(n / 10);
    }
  }

  lemma IndexKeyOfNat(n: nat)
    ensures IndexKey(NatToString(n)) == Some(n)
  {
    NatToStringValue(n);
  }

  /**
   `Number(s)` for the strings this model reads as numbers: the empty string
   (which is 0) and an optional sign followed by decimal digits. Every other
   string is NaN here (None).
   */
  function ParseInteger(s: string): (r: Option<int>)
    ensures r.Some? && |s| > 0 && (AllDigits(s)) ==> r.value == DigitsValue(s)
  {
    if |s| == 0 then Some(0)
    else if AllDigits(s) then Some(DigitsValue(s))
    else if (s[0] == '-' || s[0] == '+') && |s| > 1 && AllDigits(s[1..]) then
      var magnitude: int := DigitsValue(s[1..]);
      Some(if s[0] == '-' then -magnitude else magnitude)
    else None
  }
}
