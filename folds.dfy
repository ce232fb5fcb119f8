/**
 The `forEach` loops of both route builders visit a list of keys (paths,
 verbs, operation keys, parameters), let a callback contribute a list for
 each, and push them in order; the first exception escapes. `Contributions`
 is what the callback returns for each key, `Concat` the resulting list and
 `ForEach` the loop itself. The lemmas say where each element of the result
 comes from, that nothing is dropped, and that order is kept.
 */
module Folds {
  import opened Js

  /** The contributions of a callback over `keys`, in key order. */
  function Contributions<K, T>(f: K -> Result<seq<T>>, keys: seq<K>): (r: seq<Result<seq<T>>>)
    ensures |r| == |keys|
  {
    if |keys| == 0 then []
    else Contributions(f, keys[..|keys| - 1]) + [f(keys[|keys| - 1])]
  }

  /** The contributions concatenated in order; the first error is the result instead. */
  function Concat<T>(parts: seq<Result<seq<T>>>): Result<seq<T>> {
    if |parts| == 0 then Ok([])
    else
      var rs :- Concat(parts[..|parts| - 1]);
      var more :- parts[|parts| - 1];
      Ok(rs + more)
  }

  /** The `j`-th contribution is the callback's result for the `j`-th key. */
  lemma {:induction false} ContributionsAt<K, T>(f: K -> Result<seq<T>>, keys: seq<K>, j: nat)
    requires j < |keys|
    ensures Contributions(f, keys)[j] == f(keys[j])
  {
    var n := |keys| - 1;
    if j < n {
      ContributionsAt(f, keys[..n], j);
    }
  }

  /** The contributions over a prefix of the keys are a prefix of the contributions. */
  lemma {:induction false} ContributionsPrefix<K, T>(f: K -> Result<seq<T>>, keys: seq<K>, j: nat)
    requires j <= |keys|
    ensures Contributions(f, keys)[..j] == Contributions(f, keys[..j])
    decreases |keys|
  {
    var n := |keys| - 1;
    if j <= n {
      assert keys[..n][..j] == keys[..j];
      ContributionsPrefix(f, keys[..n], j);
    } else {
      assert keys[..j] == keys;
    }
  }

  /** Once the contributions over a prefix fail, the whole fails the same way. */
  lemma {:induction false} ConcatAbort<T>(parts: seq<Result<seq<T>>>, j: nat)
    requires j <= |parts| && Concat(parts[..j]).Err?
    ensures Concat(parts) == Concat(parts[..j])
    decreases |parts| - j
  {
    if j < |parts| {
      assert parts[..j + 1][..j] == parts[..j];
      ConcatAbort(parts, j + 1);
    } else {
      assert parts[..j] == parts;
    }
  }

  /** A list that agrees with the callback on each key is its list of contributions. */
  lemma {:induction false} ContributionsOf<K, T>(f: K -> Result<seq<T>>, keys: seq<K>, parts: seq<Result<seq<T>>>)
    requires |parts| == |keys|
    requires forall i {:trigger parts[i]} :: 0 <= i < |keys| ==> parts[i] == f(keys[i])
    ensures Contributions(f, keys) == parts
  {
    var r := Contributions(f, keys);
    forall i | 0 <= i < |keys| ensures r[i] == parts[i] {
      ContributionsAt(f, keys, i);
    }
  }

  /** One more contribution that succeeds: its list is appended. */
  lemma ConcatPush<T>(parts: seq<Result<seq<T>>>, routes: seq<T>, more: seq<T>)
    requires Concat(parts) == Ok(routes)
    ensures Concat(parts + [Ok(more)]) == Ok(routes + more)
  {
    assert (parts + [Ok(more)])[..|parts|] == parts;
  }

  /** One more contribution that fails: the whole fails with its error. */
  lemma ConcatFail<K, T>(f: K -> Result<seq<T>>, keys: seq<K>, parts: seq<Result<seq<T>>>, e: Error)
    requires |parts| < |keys|
    requires forall i {:trigger parts[i]} :: 0 <= i < |parts| ==> parts[i] == f(keys[i])
    requires Concat(parts).Ok? && f(keys[|parts|]) == Err(e)
    ensures Concat(Contributions(f, keys)) == Err(e)
  {
    var j := |parts|;
    var whole := parts + [Err(e)];
    ContributionsOf(f, keys[..j + 1], whole);
    assert whole[..j] == parts;
    ContributionsPrefix(f, keys, j + 1);
    ConcatAbort(Contributions(f, keys), j + 1);
  }

  /**
   `keys.forEach(callback)` with a callback that pushes its contributions
   onto one list: the list in key order, or the first exception.
   */
  method ForEach<K, T>(f: K -> Result<seq<T>>, keys: seq<K>) returns (r: Result<seq<T>>)
    ensures r == Concat(Contributions(f, keys))
  {
    var pushed: seq<T> := [];
    ghost var parts: seq<Result<seq<T>>> := [];
    var i := 0;
    while i < |keys|
      invariant 0 <= i <= |keys| && |parts| == i
      invariant forall p {:trigger parts[p]} :: 0 <= p < i ==> parts[p] == f(keys[p])
      invariant Concat(parts) == Ok(pushed)
    {
      var more := f(keys[i]);
      if more.Err? {
        ConcatFail(f, keys, parts, more.error);
        return Err(more.error);
      }
      ConcatPush(parts, pushed, more.value);
      parts := parts + [more];
      pushed := pushed + more.value;
      i := i + 1;
    }
    ContributionsOf(f, keys, parts);
    return Ok(pushed);
  }

  /** The callback that pushes the one value `g` gives for each key (`list.push(g(key))`). */
  function Singles<K, T>(g: K -> Result<T>): K -> Result<seq<T>> {
    key => (var x :- g(key); Ok([x]))
  }

  /** With one value pushed per key, the result lists the values of `g` in key order. */
  lemma {:induction false} ConcatSingles<K, T>(g: K -> Result<T>, keys: seq<K>, rs: seq<T>)
    requires Concat(Contributions(Singles(g), keys)) == Ok(rs)
    ensures |rs| == |keys|
    ensures forall i :: 0 <= i < |keys| ==> g(keys[i]) == Ok(rs[i])
  {
    if |keys| > 0 {
      var n := |keys| - 1;
      var parts := Contributions(Singles(g), keys);
      assert parts[..n] == Contributions(Singles(g), keys[..n]);
      ConcatLast(parts, rs);
      var front := Concat(parts[..n]).value;
      ConcatSingles(g, keys[..n], front);
      var x := g(keys[n]);
      assert parts[n] == Singles(g)(keys[n]);
      assert x.Ok? && parts[n].value == [x.value];
      forall i | 0 <= i < |keys|
        ensures g(keys[i]) == Ok(rs[i])
      {
        if i < n {
          assert keys[..n][i] == keys[i];
          assert rs[i] == front[i];
        }
      }
    }
  }

  /** `x` is element `m` of the `i`-th contribution. */
  ghost predicate At<T>(parts: seq<Result<seq<T>>>, i: int, m: int, x: T) {
    0 <= i < |parts| && parts[i].Ok? && 0 <= m < |parts[i].value| && parts[i].value[m] == x
  }

  /** `x` is an element of some contribution. */
  ghost predicate Among<T>(parts: seq<Result<seq<T>>>, x: T) {
    exists i, m :: At(parts, i, m, x)
  }

  /** `x` is found in an earlier contribution than `y`, or earlier in the same one. */
  ghost predicate Before<T>(parts: seq<Result<seq<T>>>, x: T, y: T) {
    exists ia, ma, ib, mb :: At(parts, ia, ma, x) && At(parts, ib, mb, y) && (ia < ib || (ia == ib && ma < mb))
  }

  /** `x` is one of `rs`. */
  ghost predicate Listed<T>(rs: seq<T>, x: T) {
    exists k :: 0 <= k < |rs| && rs[k] == x
  }

  lemma AtPrefix<T>(parts: seq<Result<seq<T>>>, n: nat, i: int, m: int, x: T)
    requires n <= |parts| && At(parts[..n], i, m, x)
    ensures At(parts, i, m, x) && i < n
  {
    assert parts[..n][i] == parts[i];
  }

  lemma ConcatLast<T>(parts: seq<Result<seq<T>>>, rs: seq<T>)
    requires |parts| > 0 && Concat(parts) == Ok(rs)
    ensures var n := |parts| - 1;
            && Concat(parts[..n]).Ok? && parts[n].Ok?
            && rs == Concat(parts[..n]).value + parts[n].value
  {
  }

  /** Each concatenated route is an element of some contribution. */
  lemma {:induction false} ConcatOrigin<T>(parts: seq<Result<seq<T>>>, rs: seq<T>)
    requires Concat(parts) == Ok(rs)
    ensures forall k :: 0 <= k < |rs| ==> Among(parts, rs[k])
  {
    if |parts| > 0 {
      var n := |parts| - 1;
      ConcatLast(parts, rs);
      var rs0 := Concat(parts[..n]).value;
      ConcatOrigin(parts[..n], rs0);
      forall k | 0 <= k < |rs|
        ensures Among(parts, rs[k])
      {
        if k < |rs0| {
          var i, m :| At(parts[..n], i, m, rs0[k]);
          AtPrefix(parts, n, i, m, rs0[k]);
          assert rs[k] == rs0[k];
        } else {
          assert At(parts, n, k - |rs0|, rs[k]);
        }
      }
    }
  }

  /** Concatenation succeeds only when every contribution does, and keeps all their elements. */
  lemma {:induction false} ConcatComplete<T>(parts: seq<Result<seq<T>>>, rs: seq<T>)
    requires Concat(parts) == Ok(rs)
    ensures forall i :: 0 <= i < |parts| ==> parts[i].Ok?
    ensures forall i, m :: 0 <= i < |parts| && parts[i].Ok? && 0 <= m < |parts[i].value| ==> Listed(rs, parts[i].value[m])
  {
    if |parts| > 0 {
      var n := |parts| - 1;
      ConcatLast(parts, rs);
      var rs0 := Concat(parts[..n]).value;
      ConcatComplete(parts[..n], rs0);
      forall i | 0 <= i < |parts|
        ensures parts[i].Ok?
      {
        if i < n {
          assert parts[..n][i] == parts[i];
        }
      }
      forall i, m | 0 <= i < |parts| && parts[i].Ok? && 0 <= m < |parts[i].value|
        ensures Listed(rs, parts[i].value[m])
      {
        if i < n {
          assert parts[..n][i] == parts[i];
          var k :| 0 <= k < |rs0| && rs0[k] == parts[..n][i].value[m];
          assert rs[k] == rs0[k];
        } else {
          assert rs[|rs0| + m] == parts[n].value[m];
        }
      }
    }
  }

  /** Concatenation keeps the order of the contributions and the order within each. */
  lemma {:induction false} ConcatOrder<T>(parts: seq<Result<seq<T>>>, rs: seq<T>)
    requires Concat(parts) == Ok(rs)
    ensures forall a, b :: 0 <= a < b < |rs| ==> Before(parts, rs[a], rs[b])
  {
    if |parts| > 0 {
      var n := |parts| - 1;
      ConcatLast(parts, rs);
      var rs0 := Concat(parts[..n]).value;
      ConcatOrder(parts[..n], rs0);
      ConcatOrigin(parts[..n], rs0);
      forall a, b | 0 <= a < b < |rs|
        ensures Before(parts, rs[a], rs[b])
      {
        if b < |rs0| {
          assert rs[a] == rs0[a] && rs[b] == rs0[b];
          assert Before(parts[..n], rs0[a], rs0[b]);
          var ia, ma, ib, mb :| At(parts[..n], ia, ma, rs0[a]) && At(parts[..n], ib, mb, rs0[b]) && (ia < ib || (ia == ib && ma < mb));
          AtPrefix(parts, n, ia, ma, rs0[a]);
          AtPrefix(parts, n, ib, mb, rs0[b]);
        } else if a < |rs0| {
          assert rs[a] == rs0[a];
          assert Among(parts[..n], rs0[a]);
          var ia, ma :| At(parts[..n], ia, ma, rs0[a]);
          AtPrefix(parts, n, ia, ma, rs0[a]);
          assert At(parts, n, b - |rs0|, rs[b]);
        } else {
          assert At(parts, n, a - |rs0|, rs[a]);
          assert At(parts, n, b - |rs0|, rs[b]);
        }
      }
    }
  }


  function Sum(xs: seq<nat>): nat {
    if |xs| == 0 then 0 else Sum(xs[..|xs| - 1]) + xs[|xs| - 1]
  }

  /** When each contribution has at most `bounds[i]` elements, the result has at most their sum. */
  lemma {:induction false} ConcatBound<T>(parts: seq<Result<seq<T>>>, rs: seq<T>, bounds: seq<nat>)
    requires Concat(parts) == Ok(rs)
    requires |bounds| == |parts|
    requires forall i :: 0 <= i < |parts| && parts[i].Ok? ==> |parts[i].value| <= bounds[i]
    ensures |rs| <= Sum(bounds)
  {
    if |parts| > 0 {
      var n := |parts| - 1;
      ConcatLast(parts, rs);
      forall i | 0 <= i < n && parts[..n][i].Ok?
        ensures |parts[..n][i].value| <= bounds[..n][i]
      {
        assert parts[..n][i] == parts[i];
      }
      ConcatBound(parts[..n], Concat(parts[..n]).value, bounds[..n]);
    }
  }
}
