/**
 The JavaScript values the modelled code reads: API documents, handler trees,
 parameters and schemas are all values of this type. An object keeps its
 members in insertion order, which is the order `Object.keys` reports
 (apart from integer-like keys, which JavaScript lists first).
 A function value (a handler or an authorize callable) is an opaque `Func`.
 */
module Js {
  import opened Wrappers
  import opened Strings

  datatype Value =
    | Undef
    | Null
    | Bool(b: bool)
    | Num(n: int)
    | Str(s: string)
    | Arr(items: seq<Value>)
    | Obj(members: seq<Member>)
    | Func(id: nat)

  datatype Member = Member(key: string, val: Value)

  /** The exceptions the modelled code can raise. */
  datatype Error =
    | TypeError
    | AssertionError(message: string)

  /** A computation that either returns a value or throws. */
  datatype Result<+T> = Ok(value: T) | Err(error: Error) {
    predicate IsFailure() { Err? }

    function PropagateFailure<U>(): Result<U>
      requires Err?
    {
      Err(error)
    }

    function Extract(): T
      requires Ok?
    {
      value
    }
  }

  /** JavaScript truthiness (`if (v)`, `!v`, `&&`, `||`). */
  predicate Truthy(v: Value) {
    match v
    case Undef => false
    case Null => false
    case Bool(b) => b
    case Num(n) => n != 0
    case Str(s) => s != ""
    case _ => true
  }

  /** `a || b`. */
  function Or(a: Value, b: Value): (r: Value)
    ensures Truthy(a) ==> r == a
    ensures !Truthy(a) ==> r == b
  {
    if Truthy(a) then a else b
  }

  /** `typeof v`. */
  function TypeOf(v: Value): (r: string)
    ensures r in {"undefined", "object", "boolean", "number", "string", "function"}
  {
    match v
    case Undef => "undefined"
    case Null => "object"
    case Bool(_) => "boolean"
    case Num(_) => "number"
    case Str(_) => "string"
    case Arr(_) => "object"
    case Obj(_) => "object"
    case Func(_) => "function"
  }

  /** `isObject` of core-util-is: `typeof v === 'object' && v !== null`. */
  predicate IsObject(v: Value) {
    v.Obj? || v.Arr?
  }

  /** The keys of an object's members, in order. */
  function MemberKeys(ms: seq<Member>): (r: seq<string>)
    ensures |r| == |ms|
    ensures forall i {:trigger r[i]} :: 0 <= i < |ms| ==> r[i] == ms[i].key
  {
    if |ms| == 0 then [] else [ms[0].key] + MemberKeys(ms[1..])
  }

  /** The first member named `k`, or `undefined`. */
  function Lookup(ms: seq<Member>, k: string): (r: Value)
    ensures k !in MemberKeys(ms) ==> r == Undef
    ensures |ms| > 0 && ms[0].key == k ==> r == ms[0].val
  {
    if |ms| == 0 then Undef
    else if ms[0].key == k then ms[0].val
    else Lookup(ms[1..], k)
  }

  /** Members with other keys in front of the one sought are skipped over. */
  lemma {:induction false} LookupPast(ms: seq<Member>, k: string, n: nat)
    requires n <= |ms|
    requires forall i :: 0 <= i < n ==> ms[i].key != k
    ensures Lookup(ms, k) == Lookup(ms[n..], k)
  {
    if n > 0 {
      assert ms[1..][n - 1..] == ms[n..];
      LookupPast(ms[1..], k, n - 1);
    }
  }

  /** An object's own keys have no repetitions (as for every JavaScript object). */
  predicate DistinctKeys(v: Value) {
    v.Obj? ==> forall i, j :: 0 <= i < j < |v.members| ==> v.members[i].key != v.members[j].key
  }

  /** In an object without repeated keys, each member is found by its key. */
  lemma {:induction false} LookupMember(ms: seq<Member>, i: nat)
    requires i < |ms|
    requires forall p, q :: 0 <= p < q < |ms| ==> ms[p].key != ms[q].key
    ensures Lookup(ms, ms[i].key) == ms[i].val
  {
    if i > 0 {
      LookupMember(ms[1..], i - 1);
    }
  }

  /**
   Reading property `k` of `v` where `v` is neither `undefined` nor `null`:
   an object's own member, an array's or string's element at a canonical
   index, or its `length`. Inherited properties are not modelled.
   */
  function Get(v: Value, k: string): (r: Value)
    ensures !v.Obj? && !v.Arr? && !v.Str? ==> r == Undef
  {
    match v
    case Obj(ms) => Lookup(ms, k)
    case Arr(xs) =>
      if k == "length" then Num(|xs|)
      else (match IndexKey(k)
            case Some(i) => if i < |xs| then xs[i] else Undef
            case None => Undef)
    case Str(s) =>
      if k == "length" then Num(|s|)
      else (match IndexKey(k)
            case Some(i) => if i < |s| then Str([s[i]]) else Undef
            case None => Undef)
    case _ => Undef
  }

  /** An array element is read by its decimal index. */
  lemma GetIndex(xs: seq<Value>, i: nat)
    requires i < |xs|
    ensures Get(Arr(xs), NatToString(i)) == xs[i]
  {
    IndexKeyOfNat(i);
  }

  /** `v[k]` / `v.k`: throws a TypeError on `undefined` and `null`. */
  function Prop(v: Value, k: string): (r: Result<Value>)
    ensures r.Err? <==> v.Undef? || v.Null?
    ensures r.Err? ==> r.error == TypeError
    ensures r.Ok? ==> r.value == Get(v, k)
  {
    if v.Undef? || v.Null? then Err(TypeError) else Ok(Get(v, k))
  }

  /** The decimal index keys `"0"` … `"n-1"`. */
  function IndexKeys(n: nat): (r: seq<string>)
    ensures |r| == n
    ensures forall i {:trigger r[i]} :: 0 <= i < n ==> r[i] == NatToString(i)
  {
    if n == 0 then [] else IndexKeys(n - 1) + [NatToString(n - 1)]
  }

  /** Strings as JavaScript string values. */
  function Strs(pieces: seq<string>): (r: seq<Value>)
    ensures |r| == |pieces|
    ensures forall i {:trigger r[i]} :: 0 <= i < |pieces| ==> r[i] == Str(pieces[i])
  {
    if |pieces| == 0 then [] else [Str(pieces[0])] + Strs(pieces[1..])
  }

  /** The keys `Object.keys` reports for a value that does not throw. */
  function Keys(v: Value): seq<string> {
    match v
    case Obj(ms) => MemberKeys(ms)
    case Arr(xs) => IndexKeys(|xs|)
    case Str(s) => IndexKeys(|s|)
    case _ => []
  }

  /** `Object.keys(v)`: throws a TypeError on `undefined` and `null`. */
  function ObjectKeys(v: Value): (r: Result<seq<string>>)
    ensures r.Err? <==> v.Undef? || v.Null?
    ensures r.Ok? ==> r.value == Keys(v)
  {
    if v.Undef? || v.Null? then Err(TypeError) else Ok(Keys(v))
  }

  /** `String(v)`; a function is rendered by a fixed placeholder. */
  function ToStr(v: Value): string
    decreases v, 1
  {
    match v
    case Undef => "undefined"
    case Null => "null"
    case Bool(b) => if b then "true" else "false"
    case Num(n) => IntToString(n)
    case Str(s) => s
    case Arr(xs) => JoinElements(v, xs)
    case Obj(_) => "[object Object]"
    case Func(_) => "function"
  }

  /** `Array.prototype.join(',')`: `undefined` and `null` elements become empty. */
  function JoinElements(whole: Value, xs: seq<Value>): string
    requires forall i :: 0 <= i < |xs| ==> xs[i] < whole
    decreases whole, 0, |xs|
  {
    if |xs| == 0 then ""
    else
      var first := if xs[0].Undef? || xs[0].Null? then "" else ToStr(xs[0]);
      if |xs| == 1 then first else first + "," + JoinElements(whole, xs[1..])
  }

  /** `Number(v)`, or None where the result is NaN (see `ParseInteger`). */
  function NumberOf(v: Value): Option<int> {
    match v
    case Undef => None
    case Null => Some(0)
    case Bool(b) => Some(if b then 1 else 0)
    case Num(n) => Some(n)
    case Str(s) => ParseInteger(s)
    case Arr(_) => ParseInteger(ToStr(v))
    case Obj(_) => None
    case Func(_) => None
  }
}
