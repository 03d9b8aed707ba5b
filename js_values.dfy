/**
 * The JavaScript values that flow through the modelled code, their
 * truthiness (what `||`, `!` and `cond ? a : b` test), `Number(...)`,
 * and plain objects as insertion-ordered key/value lists.
 */
module JsValues {
  import opened Text

  /**
   * A JavaScript value as far as the modelled code can see it. Numbers are
   * integers: every number here is an id, a count or a spreadsheet cell
   * holding a whole number.
   */
  datatype Value = Undefined | Null | Num(n: int) | Str(s: string) | NaN

  /** JavaScript truthiness: 0, NaN, "", null and undefined are falsy. */
  predicate Truthy(v: Value)
  {
    match v
    case Num(n) => n != 0
    case Str(s) => s != []
    case _ => false
  }

  /** `a || b`: the left operand when it is truthy, otherwise the right one. */
  function Or(a: Value, b: Value): Value
  {
    if Truthy(a) then a else b
  }

  /** `v1 || v2 || ... || vn`, evaluated left to right. */
  function OrChain(vs: seq<Value>): (r: Value)
    requires vs != []
    ensures r in vs
    ensures Truthy(r) || r == vs[|vs| - 1]
  {
    if |vs| == 1 then vs[0] else Or(vs[0], OrChain(vs[1..]))
  }

  /** The index of the first truthy value of `vs`, or |vs| when there is none. */
  function FirstTruthy(vs: seq<Value>): (k: nat)
    ensures k <= |vs|
    ensures k < |vs| ==> Truthy(vs[k])
    ensures forall j :: 0 <= j < k ==> !Truthy(vs[j])
  {
    if vs == [] then 0 else if Truthy(vs[0]) then 0 else 1 + FirstTruthy(vs[1..])
  }

  /** A chain of `||` yields its first truthy operand, or its last operand when all are falsy. */
  lemma {:induction false} OrChainFirstTruthy(vs: seq<Value>)
    requires vs != []
    ensures OrChain(vs) == if FirstTruthy(vs) < |vs| then vs[FirstTruthy(vs)] else vs[|vs| - 1]
  {
    if |vs| > 1 && !Truthy(vs[0]) {
      OrChainFirstTruthy(vs[1..]);
    }
  }

  /**
   * `Number(v)`. Of the strings only decimal digit strings are parsed
   * (the empty string is 0); every other string gives NaN.
   */
  function ToNumber(v: Value): (r: Value)
    ensures r.Num? || r.NaN?
  {
    match v
    case Undefined => NaN
    case Null => Num(0)
    case Num(_) => v
    case Str(s) => if AllDigits(s) then Num(DigitsValue(s)) else NaN
    case NaN => NaN
  }

  /** `Number` of a number is that number, so `Number` is idempotent. */
  lemma ToNumberIdempotent(v: Value)
    ensures ToNumber(ToNumber(v)) == ToNumber(v)
  {
  }

  /** A plain object: its own enumerable properties in insertion order. */
  type Object = seq<(string, Value)>

  /** `Object.keys(o)`, in enumeration order. */
  function Keys(o: Object): (r: seq<string>)
    ensures |r| == |o|
    ensures forall i :: 0 <= i < |o| ==> r[i] == o[i].0
  {
    if o == [] then [] else [o[0].0] + Keys(o[1..])
  }

  /** No key appears twice, as in every JavaScript object. */
  predicate DistinctKeys(o: Object)
  {
    forall i, j :: 0 <= i < j < |o| ==> o[i].0 != o[j].0
  }

  /** `o[k]`: the value under `k`, or undefined when `o` has no such key. */
  function Get(o: Object, k: string): Value
  {
    if o == [] then Undefined else if o[0].0 == k then o[0].1 else Get(o[1..], k)
  }

  lemma {:induction false} GetAt(o: Object, i: nat)
    requires DistinctKeys(o) && i < |o|
    ensures Get(o, o[i].0) == o[i].1
  {
    if i > 0 {
      GetAt(o[1..], i - 1);
    }
  }

  /** The value under `k` is that of its first occurrence. */
  lemma {:induction false} GetFirst(o: Object, i: nat, k: string)
    requires i < |o| && o[i].0 == k
    requires forall j :: 0 <= j < i ==> o[j].0 != k
    ensures Get(o, k) == o[i].1
  {
    if i > 0 {
      GetFirst(o[1..], i - 1, k);
    }
  }

  lemma {:induction false} GetAbsent(o: Object, k: string)
    requires k !in Keys(o)
    ensures Get(o, k) == Undefined
  {
    if o != [] {
      assert Keys(o[1..]) == Keys(o)[1..];
      GetAbsent(o[1..], k);
    }
  }

  /**
   * `o[k] = v`: an existing key keeps its position and takes the new
   * value; a new key is appended.
   */
  function Put(o: Object, k: string, v: Value): (r: Object)
    ensures k !in Keys(o) ==> r == o + [(k, v)]
    ensures k in Keys(o) ==> |r| == |o|
    ensures Get(r, k) == v
  {
    if o == [] then [(k, v)]
    else if o[0].0 == k then [(k, v)] + o[1..]
    else
      assert Keys(o) == [o[0].0] + Keys(o[1..]);
      [o[0]] + Put(o[1..], k, v)
  }

  /** After `o[k] = v` the keys are those of `o` and `k`. */
  lemma {:induction false} PutKeys(o: Object, k: string, v: Value)
    ensures forall x :: x in Keys(Put(o, k, v)) <==> x in Keys(o) || x == k
  {
    if o != [] {
      assert Keys(o) == [o[0].0] + Keys(o[1..]);
      if o[0].0 != k {
        PutKeys(o[1..], k, v);
        assert Keys(Put(o, k, v)) == [o[0].0] + Keys(Put(o[1..], k, v));
      } else {
        assert Keys(Put(o, k, v)) == [k] + Keys(o[1..]);
      }
    }
  }

  /** `o[k] = v` leaves every other property as it was. */
  lemma {:induction false} PutOthers(o: Object, k: string, v: Value, x: string)
    requires x != k
    ensures Get(Put(o, k, v), x) == Get(o, x)
  {
    if o != [] && o[0].0 != k {
      PutOthers(o[1..], k, v, x);
    }
  }

  /** `o[k] = v` keeps the keys distinct. */
  lemma {:induction false} PutDistinct(o: Object, k: string, v: Value)
    requires DistinctKeys(o)
    ensures DistinctKeys(Put(o, k, v))
  {
    if o != [] {
      HeadNotInTail(o);
      if o[0].0 == k {
        ConsDistinct((k, v), o[1..]);
      } else {
        PutDistinct(o[1..], k, v);
        PutKeys(o[1..], k, v);
        ConsDistinct(o[0], Put(o[1..], k, v));
      }
    }
  }

  /** The tail of an object with distinct keys has distinct keys, the head's key not among them. */
  lemma HeadNotInTail(o: Object)
    requires o != [] && DistinctKeys(o)
    ensures DistinctKeys(o[1..]) && o[0].0 !in Keys(o[1..])
  {
    forall i | 0 <= i < |o| - 1 ensures Keys(o[1..])[i] != o[0].0 {
      assert Keys(o[1..])[i] == o[i + 1].0;
    }
  }

  /** Putting an entry with a new key in front keeps the keys distinct. */
  lemma ConsDistinct(x: (string, Value), t: Object)
    requires DistinctKeys(t) && x.0 !in Keys(t)
    ensures DistinctKeys([x] + t)
  {
    forall j | 0 < j < |[x] + t| ensures ([x] + t)[j].0 != x.0 {
      assert ([x] + t)[j].0 == Keys(t)[j - 1];
    }
  }

  /** An object built by assigning each of `entries` in turn, starting from `{}`. */
  function Assign(entries: Object): Object
  {
    if entries == [] then [] else
      Put(Assign(entries[..|entries| - 1]), entries[|entries| - 1].0, entries[|entries| - 1].1)
  }

  /** The keys of the built object are the assigned keys. */
  lemma {:induction false} AssignKeys(entries: Object)
    ensures forall x :: x in Keys(Assign(entries)) <==> x in Keys(entries)
  {
    if entries != [] {
      var n := |entries| - 1;
      AssignKeys(entries[..n]);
      PutKeys(Assign(entries[..n]), entries[n].0, entries[n].1);
      assert Keys(entries) == Keys(entries[..n]) + [entries[n].0];
    }
  }

  /** The built object has each key once, whatever the assignments repeat. */
  lemma {:induction false} AssignKeysDistinct(entries: Object)
    ensures DistinctKeys(Assign(entries))
  {
    if entries != [] {
      var n := |entries| - 1;
      AssignKeysDistinct(entries[..n]);
      PutDistinct(Assign(entries[..n]), entries[n].0, entries[n].1);
    }
  }

  /** Each key holds the value of its last assignment. */
  lemma {:induction false} AssignLastWins(entries: Object, i: nat)
    requires i < |entries|
    requires forall j :: i < j < |entries| ==> entries[j].0 != entries[i].0
    ensures Get(Assign(entries), entries[i].0) == entries[i].1
  {
    var n := |entries| - 1;
    if i < n {
      AssignLastWins(entries[..n], i);
      PutOthers(Assign(entries[..n]), entries[n].0, entries[n].1, entries[i].0);
    }
  }

  /** Assigning distinct keys builds exactly the list of assignments. */
  lemma {:induction false} AssignDistinct(entries: Object)
    requires DistinctKeys(entries)
    ensures Assign(entries) == entries
  {
    if entries != [] {
      var n := |entries| - 1;
      var init := entries[..n];
      DistinctPrefix(entries, n);
      AssignDistinct(init);
      assert entries == init + [entries[n]];
    }
  }

  /** A prefix of an object with distinct keys has distinct keys, none of them the next one. */
  lemma DistinctPrefix(o: Object, n: nat)
    requires DistinctKeys(o) && n < |o|
    ensures DistinctKeys(o[..n]) && o[n].0 !in Keys(o[..n])
  {
    var init := o[..n];
    forall i | 0 <= i < |init| ensures Keys(init)[i] != o[n].0 {
      assert Keys(init)[i] == o[i].0;
    }
  }
}
