/** Generic helpers shared by every screen of the prototype: an optional value
    (TypeScript's `undefined` / `null`), JavaScript truthiness of the optional
    values it tests, and the order-preserving filter that `Array.prototype.filter`
    performs, together with the facts about it that the screens rely on. */
module Common {

  /** An optional value; `None` stands for an absent key, `undefined` or `null`. */
  datatype Option<+T> = None | Some(value: T) {

    /** The wrapped value, or `default` when absent (TypeScript's `x || default`
        on values that are always truthy when present, such as arrays). */
    function GetOr(default: T): T {
      match this
      case Some(v) => v
      case None => default
    }
  }

  /** The value of `{ ...base, ...patch }` for one optional key: the patch wins when it has the key. */
  function Or<T>(patch: Option<T>, base: Option<T>): Option<T> {
    if patch.Some? then patch else base
  }

  /** JavaScript truthiness of an optional flag: `undefined` and `false` are falsy. */
  predicate Truthy(b: Option<bool>) {
    b == Some(true)
  }

  /** JavaScript truthiness of an optional string: `null`, `undefined` and "" are falsy. */
  predicate TruthyText(s: Option<string>) {
    s.Some? && s.value != ""
  }

  /** `a` can be obtained from `b` by deleting elements: every element of `b` is
      either matched by the next element of `a` or skipped. */
  predicate IsSubsequence<T(==)>(a: seq<T>, b: seq<T>)
    decreases |b|
  {
    if b == [] then a == []
    else (a != [] && a[0] == b[0] && IsSubsequence(a[1..], b[1..])) || IsSubsequence(a, b[1..])
  }

  /** `s.filter(p)`: the elements of `s` that satisfy `p`, in their original order. */
  function Filter<T(==)>(s: seq<T>, p: T -> bool): (r: seq<T>)
    ensures |r| <= |s|
    ensures forall i :: 0 <= i < |r| ==> r[i] in s && p(r[i])
    ensures forall i :: 0 <= i < |s| && p(s[i]) ==> s[i] in r
  {
    if s == [] then []
    else (if p(s[0]) then [s[0]] else []) + Filter(s[1..], p)
  }

  /** The filter keeps the relative order of what it keeps. */
  lemma {:induction false} FilterIsSubsequence<T>(s: seq<T>, p: T -> bool)
    ensures IsSubsequence(Filter(s, p), s)
  {
    if s != [] {
      FilterIsSubsequence(s[1..], p);
      var rest := Filter(s[1..], p);
      if p(s[0]) {
        assert Filter(s, p) == [s[0]] + rest;
        assert ([s[0]] + rest)[1..] == rest;
      } else {
        assert Filter(s, p) == rest;
      }
    }
  }

  /** Filtering keeps every copy of an element that passes and no copy of one that
      fails: multiplicities, not only membership, are exact. */
  lemma {:induction false} FilterCounts<T>(s: seq<T>, p: T -> bool)
    ensures forall x :: multiset(Filter(s, p))[x] == if p(x) then multiset(s)[x] else 0
  {
    if s != [] {
      FilterCounts(s[1..], p);
      assert s == [s[0]] + s[1..];
      assert multiset(s) == multiset([s[0]]) + multiset(s[1..]);
    }
  }

  /** Filtering by `p` and by its complement `q` splits `s` into two parts that
      together hold every element exactly as often as `s` does. */
  lemma {:induction false} FilterSplits<T>(s: seq<T>, p: T -> bool, q: T -> bool)
    requires forall i :: 0 <= i < |s| ==> q(s[i]) == !p(s[i])
    ensures multiset(Filter(s, p)) + multiset(Filter(s, q)) == multiset(s)
    ensures |Filter(s, p)| + |Filter(s, q)| == |s|
  {
    if s != [] {
      FilterSplits(s[1..], p, q);
      assert s == [s[0]] + s[1..];
    }
  }

  /** Membership in a filter, element-wise. */
  lemma FilterMembership<T>(s: seq<T>, p: T -> bool)
    ensures forall x :: x in Filter(s, p) <==> x in s && p(x)
  {
    forall x | x in s && p(x) ensures x in Filter(s, p) {
      var i :| 0 <= i < |s| && s[i] == x;
    }
  }

  /** A filter whose predicate holds of every element keeps the whole sequence. */
  lemma {:induction false} FilterKeepsAll<T>(s: seq<T>, p: T -> bool)
    requires forall i :: 0 <= i < |s| ==> p(s[i])
    ensures Filter(s, p) == s
  {
    if s != [] {
      FilterKeepsAll(s[1..], p);
      assert s == [s[0]] + s[1..];
    }
  }

  /** Two predicates that agree on the elements of `s` filter it identically. */
  lemma {:induction false} FilterExtensional<T>(s: seq<T>, p: T -> bool, q: T -> bool)
    requires forall i :: 0 <= i < |s| ==> p(s[i]) == q(s[i])
    ensures Filter(s, p) == Filter(s, q)
  {
    if s != [] {
      FilterExtensional(s[1..], p, q);
    }
  }

  /** A stricter predicate keeps no more elements than a weaker one. */
  lemma {:induction false} FilterMonotone<T>(s: seq<T>, p: T -> bool, q: T -> bool)
    requires forall i :: 0 <= i < |s| && p(s[i]) ==> q(s[i])
    ensures |Filter(s, p)| <= |Filter(s, q)|
  {
    if s != [] {
      FilterMonotone(s[1..], p, q);
    }
  }

  /** `s.find(x => key(x) === id)` from index `from` on, as an index: the first
      element at or after `from` whose key is `id`. */
  function FindFrom<T>(s: seq<T>, key: T -> string, id: string, from: nat): (r: Option<nat>)
    requires from <= |s|
    ensures r.Some? ==> from <= r.value < |s| && key(s[r.value]) == id
    ensures r.Some? ==> forall j :: from <= j < r.value ==> key(s[j]) != id
    ensures r.None? ==> forall j :: from <= j < |s| ==> key(s[j]) != id
    decreases |s| - from
  {
    if from == |s| then None
    else if key(s[from]) == id then Some(from)
    else FindFrom(s, key, id, from + 1)
  }

  /** The element found depends only on the keys. */
  lemma {:induction false} FindByKeysOnly<T>(s: seq<T>, s': seq<T>, key: T -> string, id: string, from: nat)
    requires |s| == |s'| && from <= |s|
    requires forall i :: 0 <= i < |s| ==> key(s[i]) == key(s'[i])
    ensures FindFrom(s, key, id, from) == FindFrom(s', key, id, from)
    decreases |s| - from
  {
    if from < |s| {
      FindByKeysOnly(s, s', key, id, from + 1);
    }
  }
}
