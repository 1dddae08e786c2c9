/** Sequence utilities shared by the model: optional and error results, the
    behaviour of JavaScript's `Array.prototype.filter`, `find`, `splice` and
    index assignment, and the insertion-ordered `Set` the plugin collects tags in. */
module Seqs {

  datatype Option<T> = None | Some(value: T)

  datatype Result<T, E> = Ok(value: T) | Err(error: E)

  /** `sub` is `s` with some elements left out and the rest kept in order. */
  predicate IsSubsequence<T(==)>(sub: seq<T>, s: seq<T>)
    decreases |s|
  {
    if sub == [] then true
    else if s == [] then false
    else if sub[0] == s[0] then IsSubsequence(sub[1..], s[1..])
    else IsSubsequence(sub, s[1..])
  }

  predicate NoDuplicates<T(==)>(s: seq<T>) {
    forall i, j | 0 <= i < j < |s| :: s[i] != s[j]
  }

  /** `Array.prototype.filter`: the elements of `s` that `keep` accepts, in order.
      The result is a subsequence of `s` that holds every accepted occurrence and
      nothing else, which determines it uniquely. */
  function Filter<T(==,!new)>(s: seq<T>, keep: T -> bool): (r: seq<T>)
    ensures IsSubsequence(r, s)
    ensures forall i | 0 <= i < |r| :: keep(r[i])
    ensures forall x :: multiset(r)[x] == if keep(x) then multiset(s)[x] else 0
  {
    if s == [] then []
    else
      var rest := Filter(s[1..], keep);
      assert s == [s[0]] + s[1..];
      if keep(s[0]) then
        assert ([s[0]] + rest)[1..] == rest;
        [s[0]] + rest
      else
        assert rest != [] ==> rest[0] != s[0];
        rest
  }

  lemma {:induction false} FilterKeepsAll<T(!new)>(s: seq<T>, keep: T -> bool)
    requires forall i | 0 <= i < |s| :: keep(s[i])
    ensures Filter(s, keep) == s
  {
    if s != [] {
      FilterKeepsAll(s[1..], keep);
    }
  }

  /** An element is in the filtered sequence exactly when it is in `s` and passes. */
  lemma FilterMembers<T(!new)>(s: seq<T>, keep: T -> bool, x: T)
    ensures x in Filter(s, keep) <==> x in s && keep(x)
  {
    assert x in Filter(s, keep) <==> multiset(Filter(s, keep))[x] > 0;
    assert x in s <==> multiset(s)[x] > 0;
  }

  /** Two tests that agree on every element of `s` filter it alike. */
  lemma {:induction false} FilterSameTest<T(!new)>(s: seq<T>, p: T -> bool, q: T -> bool)
    requires forall i | 0 <= i < |s| :: p(s[i]) == q(s[i])
    ensures Filter(s, p) == Filter(s, q)
  {
    if s != [] {
      FilterSameTest(s[1..], p, q);
    }
  }

  /** `Array.prototype.findIndex`: the first index whose element `p` accepts. */
  function FirstIndex<T>(s: seq<T>, p: T -> bool): (r: Option<nat>)
    ensures r.Some? ==> r.value < |s| && p(s[r.value])
    ensures r.Some? ==> forall j | 0 <= j < r.value :: !p(s[j])
    ensures r.None? <==> forall j | 0 <= j < |s| :: !p(s[j])
  {
    if s == [] then None
    else if p(s[0]) then Some(0)
    else match FirstIndex(s[1..], p)
      case None => None
      case Some(k) => Some(k + 1)
  }

  /** `Array.prototype.find`: the first element `p` accepts, if any. */
  function Find<T>(s: seq<T>, p: T -> bool): (r: Option<T>)
    ensures r.None? <==> forall j | 0 <= j < |s| :: !p(s[j])
    ensures r.Some? ==> exists i | 0 <= i < |s| :: s[i] == r.value && p(s[i]) && forall j | 0 <= j < i :: !p(s[j])
  {
    match FirstIndex(s, p)
    case None => None
    case Some(k) => Some(s[k])
  }

  /** The entry read by `s[index]`: JavaScript yields `undefined` outside the array. */
  function ElementAt<T>(s: seq<T>, index: int): (r: Option<T>)
    ensures r.Some? <==> 0 <= index < |s|
    ensures r.Some? ==> r.value == s[index]
  {
    if 0 <= index < |s| then Some(s[index]) else None
  }

  /** The effect of `s[index] = x` on the elements of a JavaScript array: an
      index inside the array replaces that entry, the index one past the end
      appends, and a negative index sets a property that is not an element.
      An index further past the end would leave holes and is not modelled. */
  function AssignAt<T>(s: seq<T>, index: int, x: T): (r: seq<T>)
    requires index <= |s|
    ensures 0 <= index < |s| ==> |r| == |s| && r[index] == x
    ensures 0 <= index < |s| ==> forall j | 0 <= j < |s| && j != index :: r[j] == s[j]
    ensures index == |s| ==> r == s + [x]
    ensures index < 0 ==> r == s
  {
    if 0 <= index < |s| then s[index := x]
    else if index == |s| then s + [x]
    else s
  }

  /** The position `splice(index, …)` starts at: a negative index counts from the end. */
  function SpliceStart(len: nat, index: int): (start: nat)
    ensures start <= len
    ensures 0 <= index <= len ==> start == index
    ensures -(len as int) <= index < 0 ==> start as int == len as int + index
    ensures index < -(len as int) ==> start == 0
    ensures len < index ==> start == len
  {
    if index < 0 then (if len + index < 0 then 0 else len + index)
    else if index > len then len
    else index
  }

  /** `s.splice(index, 1)`: removes the one entry at the splice start, if there is one. */
  function RemoveAt<T>(s: seq<T>, index: int): (r: seq<T>)
    ensures var k := SpliceStart(|s|, index);
      if k < |s| then
        && |r| == |s| - 1
        && (forall j | 0 <= j < k :: r[j] == s[j])
        && (forall j | k <= j < |r| :: r[j] == s[j + 1])
      else r == s
  {
    var k := SpliceStart(|s|, index);
    if k < |s| then s[..k] + s[k + 1..] else s
  }

  /** Removing an entry takes exactly that one element out of the collection. */
  lemma RemoveAtMultiset<T>(s: seq<T>, index: int)
    requires 0 <= index < |s|
    ensures multiset(RemoveAt(s, index)) + multiset{s[index]} == multiset(s)
  {
    assert RemoveAt(s, index) == s[..index] + s[index + 1..];
    assert s == s[..index] + [s[index]] + s[index + 1..];
  }

  /** JavaScript's `Set.prototype.add` on a set kept in insertion order. */
  function SetAdd<T(==,!new)>(elems: seq<T>, x: T): (r: seq<T>)
    ensures NoDuplicates(elems) ==> NoDuplicates(r)
    ensures forall y :: y in r <==> y in elems || y == x
    ensures |elems| <= |r| && r[..|elems|] == elems
  {
    if x in elems then elems else elems + [x]
  }

  /** Adding every element of `xs` in turn, as the plugin's `forEach` loops do. */
  function AddAll<T(==,!new)>(elems: seq<T>, xs: seq<T>): (r: seq<T>)
    ensures NoDuplicates(elems) ==> NoDuplicates(r)
    ensures forall y :: y in r <==> y in elems || y in xs
    ensures |elems| <= |r| && r[..|elems|] == elems
    decreases |xs|
  {
    if xs == [] then elems
    else
      var r := AddAll(SetAdd(elems, xs[0]), xs[1..]);
      assert forall y :: y in xs <==> y == xs[0] || y in xs[1..] by {
        assert xs == [xs[0]] + xs[1..];
      }
      r
  }

  /** Adding `xs + ys` is adding `xs`, then `ys`. */
  lemma {:induction false} AddAllAppend<T(!new)>(elems: seq<T>, xs: seq<T>, ys: seq<T>)
    ensures AddAll(elems, xs + ys) == AddAll(AddAll(elems, xs), ys)
    decreases |xs|
  {
    if xs == [] {
      assert xs + ys == ys;
    } else {
      assert (xs + ys)[0] == xs[0];
      assert (xs + ys)[1..] == xs[1..] + ys;
      AddAllAppend(SetAdd(elems, xs[0]), xs[1..], ys);
    }
  }

  /** `xs.forEach(x => set.add(x))` on an insertion-ordered set. */
  method AddEach<T(==,!new)>(elems: seq<T>, xs: seq<T>) returns (r: seq<T>)
    ensures r == AddAll(elems, xs)
  {
    r := elems;
    var i := 0;
    while i < |xs|
      invariant 0 <= i <= |xs|
      invariant r == AddAll(elems, xs[..i])
    {
      AddAllPrefixStep(elems, xs, i);
      if xs[i] !in r {
        r := r + [xs[i]];
      }
      i := i + 1;
    }
    assert xs[..i] == xs;
  }

  /** Adding one more element of `xs` adds it to the set. */
  lemma AddAllPrefixStep<T(!new)>(elems: seq<T>, xs: seq<T>, i: nat)
    requires i < |xs|
    ensures AddAll(elems, xs[..i + 1]) == SetAdd(AddAll(elems, xs[..i]), xs[i])
  {
    assert xs[..i + 1] == xs[..i] + [xs[i]];
    AddAllSnoc(elems, xs[..i], xs[i]);
  }

  /** The distinct elements of `xs` in order of first occurrence. */
  function Distinct<T(==,!new)>(xs: seq<T>): (r: seq<T>)
    ensures NoDuplicates(r)
    ensures forall y :: y in r <==> y in xs
  {
    AddAll([], xs)
  }

  /** First-occurrence order: what the first elements contribute comes first. */
  lemma DistinctPrefix<T(!new)>(xs: seq<T>, k: nat)
    requires k <= |xs|
    ensures var p := Distinct(xs[..k]); |p| <= |Distinct(xs)| && Distinct(xs)[..|p|] == p
  {
    assert xs == xs[..k] + xs[k..];
    AddAllAppend([], xs[..k], xs[k..]);
  }

  /** Appending one element to the input adds it to the set. */
  lemma AddAllSnoc<T(!new)>(elems: seq<T>, xs: seq<T>, x: T)
    ensures AddAll(elems, xs + [x]) == SetAdd(AddAll(elems, xs), x)
  {
    AddAllAppend(elems, xs, [x]);
    assert AddAll(AddAll(elems, xs), [x]) == AddAll(SetAdd(AddAll(elems, xs), x), []);
  }

  /** `xs.map(f)`. */
  function MapSeq<T, U>(xs: seq<T>, f: T -> U): (r: seq<U>)
    ensures |r| == |xs| && forall i | 0 <= i < |xs| :: r[i] == f(xs[i])
  {
    seq(|xs|, i requires 0 <= i < |xs| => f(xs[i]))
  }

  /** The concatenation of a sequence of sequences. */
  function Flatten<T>(ss: seq<seq<T>>): (r: seq<T>)
    ensures forall i, x | 0 <= i < |ss| && x in ss[i] :: x in r
  {
    if ss == [] then [] else ss[0] + Flatten(ss[1..])
  }

  lemma {:induction false} FlattenSnoc<T>(ss: seq<seq<T>>, s: seq<T>)
    ensures Flatten(ss + [s]) == Flatten(ss) + s
  {
    if ss == [] {
      assert [] + [s] == [s];
    } else {
      assert (ss + [s])[1..] == ss[1..] + [s];
      FlattenSnoc(ss[1..], s);
    }
  }

  lemma {:induction false} FlattenMembers<T>(ss: seq<seq<T>>, x: T)
    ensures x in Flatten(ss) <==> exists i | 0 <= i < |ss| :: x in ss[i]
  {
    if ss != [] {
      FlattenMembers(ss[1..], x);
      assert forall i | 1 <= i < |ss| :: ss[1..][i - 1] == ss[i];
    }
  }

  /** One turn of a loop that adds the list `f(xs[i])` of each element to an
      insertion-ordered set. */
  lemma AddAllMappedStep<T, U(!new)>(xs: seq<T>, f: T -> seq<U>, i: nat)
    requires i < |xs|
    ensures AddAll([], Flatten(MapSeq(xs[..i + 1], f)))
      == AddAll(AddAll([], Flatten(MapSeq(xs[..i], f))), f(xs[i]))
  {
    assert MapSeq(xs[..i + 1], f) == MapSeq(xs[..i], f) + [f(xs[i])];
    FlattenSnoc(MapSeq(xs[..i], f), f(xs[i]));
    AddAllAppend([], Flatten(MapSeq(xs[..i], f)), f(xs[i]));
  }
}
