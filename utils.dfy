/**
 The shared helpers of `lib/utils.js`: the fixed list of HTTP verbs and the
 string helpers `endsWith`, `prefix`, `unprefix`, `suffix` and `unsuffix`.
 A `str` argument that is missing (`undefined`, `null`) is `None`.
 */
module Utils {
  import opened Wrappers
  import opened Strings

  /** The HTTP verbs a path object may declare, in the fixed order the older route builder visits them. */
  const Verbs: seq<string> := ["get", "post", "put", "delete", "head", "options", "trace", "connect", "patch"]

  predicate IsLowerWord(w: string) {
    |w| > 0 && forall i :: 0 <= i < |w| ==> 'a' <= w[i] <= 'z'
  }

  lemma VerbsShape()
    ensures |Verbs| == 9
    ensures forall i, j :: 0 <= i < j < |Verbs| ==> Verbs[i] != Verbs[j]
    ensures forall i :: 0 <= i < |Verbs| ==> IsLowerWord(Verbs[i])
  {
  }

  /** The position of a verb in `Verbs`. */
  function VerbIndex(v: string): (r: nat)
    requires v in Verbs
    ensures r < |Verbs| && Verbs[r] == v
  {
    if v == "get" then 0 else if v == "post" then 1 else if v == "put" then 2
    else if v == "delete" then 3 else if v == "head" then 4 else if v == "options" then 5
    else if v == "trace" then 6 else if v == "connect" then 7 else 8
  }

  /** `str || ''` for a string argument. */
  function OrEmpty(str: Option<string>): string {
    match str
    case None => ""
    case Some(s) => s
  }

  /** `s.slice(start)` with JavaScript's treatment of a negative start. */
  function SliceFrom(s: string, start: int): (r: string)
    ensures |r| <= |s|
    ensures 0 <= start <= |s| ==> r == s[start..]
  {
    if start < 0 then (if |s| + start < 0 then s else s[|s| + start..])
    else if start >= |s| then ""
    else s[start..]
  }

  /** `endsWith(haystack, needle)` as written, including its one-character shortcut. */
  function EndsWith(haystack: Option<string>, needle: Option<string>): bool {
    var h := OrEmpty(haystack);
    var n := OrEmpty(needle);
    if h == "" || n == "" then false
    else if |n| == 1 then [h[|h| - 1]] == n
    else SliceFrom(h, |h| - |n|) == n
  }

  /** `endsWith` is false when either argument is empty or missing. */
  lemma EndsWithEmpty(haystack: Option<string>, needle: Option<string>)
    requires OrEmpty(haystack) == "" || OrEmpty(needle) == ""
    ensures !EndsWith(haystack, needle)
  {
  }

  /** Otherwise `endsWith` holds exactly when the haystack's last |needle| characters are the needle. */
  lemma EndsWithIff(h: string, n: string)
    requires h != "" && n != ""
    ensures EndsWith(Some(h), Some(n)) <==> |n| <= |h| && h[|h| - |n|..] == n
  {
    if |n| == 1 && |n| <= |h| {
      assert h[|h| - 1..] == [h[|h| - 1]];
    }
  }

  /** `prefix(str, pre)`: `pre + str` unless `str` already starts with `pre`. */
  function Prefix(str: Option<string>, pre: string): (r: string)
    ensures pre <= r
  {
    var s := OrEmpty(str);
    IndexOfZeroIffPrefix(s, pre);
    if IndexOf(s, pre) == 0 then s else pre + s
  }

  /** `unprefix(str, pre)`: drops one leading `pre`, if there is one. */
  function Unprefix(str: Option<string>, pre: string): (r: string)
    ensures pre <= OrEmpty(str) ==> r == OrEmpty(str)[|pre|..]
    ensures !(pre <= OrEmpty(str)) ==> r == OrEmpty(str)
  {
    var s := OrEmpty(str);
    IndexOfZeroIffPrefix(s, pre);
    if IndexOf(s, pre) == 0 then s[|pre|..] else s
  }

  /** `suffix(str, suff)`: `str + suff` unless `str` already ends with `suff`. */
  function Suffix(str: Option<string>, suff: string): (r: string)
    ensures OrEmpty(str) <= r
    ensures suff != "" ==> EndsWith(Some(r), Some(suff))
  {
    var s := OrEmpty(str);
    if EndsWith(Some(s), Some(suff)) then s
    else
      var r := s + suff;
      if suff == "" then r
      else
        assert r[|r| - |suff|..] == suff;
        EndsWithIff(r, suff);
        r
  }

  /** `unsuffix(str, suff)`: drops one trailing `suff`, if there is one. */
  function Unsuffix(str: Option<string>, suff: string): (r: string)
    ensures EndsWith(Some(OrEmpty(str)), Some(suff)) ==> OrEmpty(str) == r + suff
    ensures !EndsWith(Some(OrEmpty(str)), Some(suff)) ==> r == OrEmpty(str)
  {
    var s := OrEmpty(str);
    if EndsWith(Some(s), Some(suff)) then
      EndsWithIff(s, suff);
      assert s == s[..|s| - |suff|] + s[|s| - |suff|..];
      s[..|s| - |suff|]
    else s
  }

  /** A string that already starts with `pre` is returned unchanged. */
  lemma PrefixKeeps(s: string, pre: string)
    requires pre <= s
    ensures Prefix(Some(s), pre) == s
  {
    IndexOfZeroIffPrefix(s, pre);
  }

  lemma PrefixIdempotent(str: Option<string>, pre: string)
    ensures Prefix(Some(Prefix(str, pre)), pre) == Prefix(str, pre)
  {
    PrefixKeeps(Prefix(str, pre), pre);
  }

  /** `unprefix` undoes `prefix` on a string that did not start with `pre`. */
  lemma UnprefixPrefix(s: string, pre: string)
    requires !(pre <= s)
    ensures Unprefix(Some(Prefix(Some(s), pre)), pre) == s
  {
    IndexOfZeroIffPrefix(s, pre);
    assert (pre + s)[|pre|..] == s;
  }

  /** A string that already ends with `suff` comes back from `suffix` unchanged. */
  lemma SuffixKeeps(s: string, suff: string)
    requires suff != "" && |suff| <= |s| && s[|s| - |suff|..] == suff
    ensures Suffix(Some(s), suff) == s
  {
    EndsWithIff(s, suff);
  }

  lemma SuffixIdempotent(str: Option<string>, suff: string)
    ensures Suffix(Some(Suffix(str, suff)), suff) == Suffix(str, suff)
  {
    if suff != "" {
      var r := Suffix(str, suff);
      EndsWithIff(r, suff);
      SuffixKeeps(r, suff);
    } else {
      assert OrEmpty(str) + suff == OrEmpty(str);
    }
  }

  /** `unsuffix` undoes `suffix` on a string that did not end with `suff`. */
  lemma UnsuffixSuffix(s: string, suff: string)
    requires !EndsWith(Some(s), Some(suff))
    ensures Unsuffix(Some(Suffix(Some(s), suff)), suff) == s
  {
    var r := s + suff;
    if suff == "" {
      assert r == s;
    } else {
      assert r[..|r| - |suff|] == s;
    }
  }

  /** A missing `str` behaves as the empty string in all four helpers. */
  lemma MissingIsEmpty(pre: string)
    ensures Prefix(None, pre) == Prefix(Some(""), pre) == pre
    ensures Unprefix(None, pre) == Unprefix(Some(""), pre)
    ensures Suffix(None, pre) == Suffix(Some(""), pre) == pre
    ensures Unsuffix(None, pre) == Unsuffix(Some(""), pre) == ""
  {
    IndexOfZeroIffPrefix("", pre);
  }
}
