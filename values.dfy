/**
 * The JavaScript values an extracted record holds, and the three ways the
 * extension looks at them: truthiness (`!x`, `x || y`), `String(x)`, and
 * property read (`obj[key]`, `undefined` when absent).
 */
module JsValues {
  import opened Wrappers
  import Text

  datatype Value = Str(s: string) | Null | Num(n: int)

  /** A plain JavaScript object with primitive values, such as an extracted record. */
  type Record = map<string, Value>

  /** JavaScript truthiness: the empty string, `null` and `0` are falsy. */
  predicate Truthy(v: Value) {
    match v
    case Str(s) => s != ""
    case Null => false
    case Num(n) => n != 0
  }

  /** Truthiness of an attribute or match group that may be missing (`null`). */
  predicate TruthyText(t: Option<string>) {
    t.Some? && t.value != ""
  }

  /** `obj[key]`: `None` stands for `undefined`. */
  function Get(r: Record, key: string): (v: Option<Value>)
    ensures v.Some? <==> key in r
    ensures v.Some? ==> v.value == r[key]
  {
    if key in r then Some(r[key]) else None
  }

  /** `!!obj[key]`. */
  predicate FieldTruthy(r: Record, key: string) {
    key in r && Truthy(r[key])
  }

  /** `String(v)`. */
  function ToJsString(v: Value): string {
    match v
    case Str(s) => s
    case Null => "null"
    case Num(n) => Text.IntToString(n)
  }

  /** Every string survives the round trip through `String`. */
  lemma ToJsStringOfStr(s: string)
    ensures ToJsString(Str(s)) == s
  {
  }
}

/** Sequence helpers shared by the extractors and the popup: `filter`, and the
 *  facts about it that the popup's search and grouping promise. */
module Seqs {
  /** `s.filter(p)`: keeps exactly the elements satisfying `p`. */
  function FilterSeq<T(!new)>(s: seq<T>, p: T -> bool): (r: seq<T>)
    ensures |r| <= |s|
    ensures forall x :: x in r <==> x in s && p(x)
  {
    if |s| == 0 then []
    else
      var rest := FilterSeq(s[1..], p);
      assert s == [s[0]] + s[1..];
      if p(s[0]) then [s[0]] + rest else rest
  }

  /** Filtering keeps the survivors in their order, each as often as before. */
  lemma {:induction false} FilterSeqOrder<T(!new)>(s: seq<T>, p: T -> bool)
    ensures IsSubsequence(FilterSeq(s, p), s)
    ensures forall x :: multiset(FilterSeq(s, p))[x] == if p(x) then multiset(s)[x] else 0
    decreases |s|
  {
    if |s| > 0 {
      FilterSeqOrder(s[1..], p);
      assert s == [s[0]] + s[1..];
      var rest := FilterSeq(s[1..], p);
      if !p(s[0]) {
        assert rest != [] ==> rest[0] != s[0];
        SubsequenceOfTail(rest, s);
      }
    }
  }

  lemma SubsequenceOfTail<T>(a: seq<T>, b: seq<T>)
    requires b != [] && IsSubsequence(a, b[1..])
    requires a != [] ==> a[0] != b[0]
    ensures IsSubsequence(a, b)
  {
  }

  /** `a` is `b` with some elements removed, the rest kept in order. */
  ghost predicate IsSubsequence<T>(a: seq<T>, b: seq<T>)
    decreases |b|
  {
    if a == [] then true
    else if b == [] then false
    else if a[0] == b[0] then IsSubsequence(a[1..], b[1..])
    else IsSubsequence(a, b[1..])
  }

  lemma {:induction false} FilterSeqAppend<T(!new)>(a: seq<T>, b: seq<T>, p: T -> bool)
    ensures FilterSeq(a + b, p) == FilterSeq(a, p) + FilterSeq(b, p)
    decreases |a|
  {
    if |a| == 0 {
      assert a + b == b;
    } else {
      assert (a + b)[1..] == a[1..] + b;
      FilterSeqAppend(a[1..], b, p);
    }
  }

  lemma FilterSeqAll<T(!new)>(s: seq<T>, p: T -> bool)
    requires forall x :: x in s ==> p(x)
    ensures FilterSeq(s, p) == s
    decreases |s|
  {
    if |s| > 0 {
      FilterSeqAll(s[1..], p);
    }
  }

  /** `a.length + b.length + ...` for the lists a map holds under the keys `ks`. */
  function SumSizes<K, T>(groups: map<K, seq<T>>, ks: seq<K>): nat
    requires forall k :: k in ks ==> k in groups
  {
    if |ks| == 0 then 0 else |groups[ks[0]]| + SumSizes(groups, ks[1..])
  }

  ghost predicate NoDuplicates<T>(s: seq<T>) {
    forall i, j :: 0 <= i < j < |s| ==> s[i] != s[j]
  }
}
