/** Rust's `Option`, as the annotation structures use it for values that may be absent. */
module Wrappers {

  datatype Option<+T> = None | Some(value: T) {

    /** `Option::unwrap_or`: the carried value, or `default` when there is none. */
    function GetOr(default: T): T
    {
      match this
      case Some(v) => v
      case None => default
    }
  }

  /** `HashMap::get(key).cloned()`: the value stored under `key`, if any. */
  function Lookup<K, V>(m: map<K, V>, key: K): (r: Option<V>)
    ensures r.Some? <==> key in m
    ensures r.Some? ==> r.value == m[key]
  {
    if key in m then Some(m[key]) else None
  }

  /** A counter map read with `0` for a missing key (`*entry.or_insert(0)`). */
  function CountOf<K>(m: map<K, nat>, key: K): nat
  {
    if key in m then m[key] else 0
  }

  /** The map with `f` applied to the values outside `todo`: the state of a loop that visits
      the keys of a hash map one at a time and updates each value in place. */
  function ApplyOutside<K, V>(m: map<K, V>, todo: set<K>, f: V -> V): map<K, V>
  {
    map k | k in m :: if k in todo then m[k] else f(m[k])
  }

  /** Taking one more key out of `todo` applies `f` to its value. */
  lemma ApplyOutsideStep<K, V>(m: map<K, V>, todo: set<K>, f: V -> V, id: K)
    requires id in todo && todo <= m.Keys
    ensures ApplyOutside(m, todo, f)[id := f(m[id])] == ApplyOutside(m, todo - {id}, f)
  {
  }

  /** The map without the entries outside `todo` whose value fails `keep`: the state of
      `HashMap::retain` part-way through. */
  function RetainOutside<K, V>(m: map<K, V>, todo: set<K>, keep: V -> bool): map<K, V>
  {
    map k | k in m && (k in todo || keep(m[k])) :: m[k]
  }

  /** The outputs of `f` on the elements of `xs`, in order, concatenated. */
  function ConcatMap<T, U>(xs: seq<T>, f: T -> seq<U>): seq<U>
    decreases |xs|
  {
    if |xs| == 0 then [] else ConcatMap(xs[..|xs| - 1], f) + f(xs[|xs| - 1])
  }

  /** `ConcatMap` distributes over concatenation. */
  lemma {:induction false} ConcatMapAppend<T, U>(xs: seq<T>, ys: seq<T>, f: T -> seq<U>)
    ensures ConcatMap(xs + ys, f) == ConcatMap(xs, f) + ConcatMap(ys, f)
    decreases |ys|
  {
    if |ys| > 0 {
      var init := ys[..|ys| - 1];
      ConcatMapAppend(xs, init, f);
      assert (xs + ys)[..|xs + ys| - 1] == xs + init;
      assert (xs + ys)[|xs + ys| - 1] == ys[|ys| - 1];
    } else {
      assert xs + ys == xs;
    }
  }

  /** Moving a piece from the pending part of a concatenation to the part already produced. */
  lemma AppendShift<T>(before: seq<T>, piece: seq<T>, rest: seq<T>, total: seq<T>, after: seq<T>)
    requires before + (piece + rest) == total && after == before + piece
    ensures after + rest == total
  {
  }
}
