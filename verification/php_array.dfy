/** PHP's native array as `Arr` uses it: an ordered map whose keys are integers
    or strings, and the `array_slice` function with `preserve_keys` left false. */
module PhpArrays {
  import opened Results

  datatype Key = IntKey(n: int) | StrKey(s: string)

  /** One key/value pair; the position of a pair in the sequence is its
      insertion order. */
  type Entry<V> = (Key, V)

  /** No key occurs twice. */
  predicate DistinctKeys<V>(a: seq<Entry<V>>) {
    forall i, j :: 0 <= i < j < |a| ==> a[i].0 != a[j].0
  }

  /** A PHP array: pairs in insertion order, each key at most once. */
  type PhpArray<V> = a: seq<Entry<V>> | DistinctKeys(a) witness []

  /** The keys of an array, as a set. */
  function KeySet<V>(a: seq<Entry<V>>): (ks: set<Key>)
    ensures forall i :: 0 <= i < |a| ==> a[i].0 in ks
    ensures forall k :: k in ks ==> exists i :: 0 <= i < |a| && a[i].0 == k
  {
    if a == [] then {} else {a[0].0} + KeySet(a[1..])
  }

  /** PHP's `count()` of an array is its number of keys, which is the number of
      pairs because no key repeats. */
  lemma {:induction false} CountIsNumberOfKeys<V>(a: seq<Entry<V>>)
    requires DistinctKeys(a)
    ensures |KeySet(a)| == |a|
  {
    if a != [] {
      CountIsNumberOfKeys(a[1..]);
    }
  }

  /** A packed list `[v0, v1, ...]`: the values under the integer keys 0, 1, .... */
  function List<V>(vs: seq<V>): (a: PhpArray<V>)
    ensures |a| == |vs|
    ensures forall i :: 0 <= i < |a| ==> a[i] == (IntKey(i), vs[i])
    decreases |vs|
  {
    if vs == [] then []
    else
      var init := List(vs[..|vs| - 1]);
      var a := init + [(IntKey(|vs| - 1), vs[|vs| - 1])];
      assert forall i :: 0 <= i < |init| ==> a[i] == init[i];
      a
  }

  /** How many of the pairs have an integer key. */
  function CountIntKeys<V>(a: seq<Entry<V>>): (n: nat)
    ensures n <= |a|
  {
    if a == [] then 0 else (if a[0].0.IntKey? then 1 else 0) + CountIntKeys(a[1..])
  }

  lemma {:induction false} CountIntKeysAppend<V>(a: seq<Entry<V>>, e: Entry<V>)
    ensures CountIntKeys(a + [e]) == CountIntKeys(a) + (if e.0.IntKey? then 1 else 0)
  {
    if a == [] {
      assert (a + [e])[1..] == [];
    } else {
      assert (a + [e])[1..] == a[1..] + [e];
      CountIntKeysAppend(a[1..], e);
    }
  }

  /** Among the first `j` pairs there are more integer keys than among the first
      `i` when the pair at `i` has an integer key and `i < j`. */
  lemma {:induction false} CountIntKeysGrows<V>(a: seq<Entry<V>>, i: nat, j: nat)
    requires i < j <= |a|
    requires a[i].0.IntKey?
    ensures CountIntKeys(a[..i]) < CountIntKeys(a[..j])
    decreases j
  {
    assert a[..j] == a[..j - 1] + [a[j - 1]];
    CountIntKeysAppend(a[..j - 1], a[j - 1]);
    if i < j - 1 {
      CountIntKeysGrows(a, i, j - 1);
    } else {
      assert a[..j - 1] == a[..i];
    }
  }

  /** When every key is an integer, the count is the length. */
  lemma {:induction false} CountIntKeysAllInt<V>(a: seq<Entry<V>>)
    requires forall i :: 0 <= i < |a| ==> a[i].0.IntKey?
    ensures CountIntKeys(a) == |a|
  {
    if a != [] {
      CountIntKeysAllInt(a[1..]);
    }
  }

  /** Counting the integer keys of a prefix splits off the first pair. */
  lemma CountIntKeysOfTail<V>(a: seq<Entry<V>>)
    requires a != []
    ensures forall i :: 1 <= i <= |a| ==>
      CountIntKeys(a[..i]) == (if a[0].0.IntKey? then 1 else 0) + CountIntKeys(a[1..][..i - 1])
  {
    forall i | 1 <= i <= |a|
      ensures CountIntKeys(a[..i]) == (if a[0].0.IntKey? then 1 else 0) + CountIntKeys(a[1..][..i - 1])
    {
      assert a[..i][0] == a[0];
      assert a[..i][1..] == a[1..][..i - 1];
    }
  }

  /** Re-keys a run of pairs the way `array_slice` fills its result without
      `preserve_keys`: every integer key is replaced by the next free index,
      counting up from `next`; string keys and all values are kept. */
  function Renumber<V>(a: seq<Entry<V>>, next: int): (r: seq<Entry<V>>)
    ensures |r| == |a|
    ensures forall i :: 0 <= i < |a| ==> r[i].1 == a[i].1
    ensures forall i :: 0 <= i < |a| && a[i].0.StrKey? ==> r[i].0 == a[i].0
    ensures forall i :: 0 <= i < |a| && a[i].0.IntKey? ==> r[i].0 == IntKey(next + CountIntKeys(a[..i]))
    decreases |a|
  {
    if a == [] then []
    else
      var step := if a[0].0.IntKey? then 1 else 0;
      var key := if a[0].0.IntKey? then IntKey(next) else a[0].0;
      var rest := Renumber(a[1..], next + step);
      var r := [(key, a[0].1)] + rest;
      CountIntKeysOfTail(a);
      assert forall i :: 1 <= i < |a| ==> r[i] == rest[i - 1] && a[i] == a[1..][i - 1];
      assert a[..0] == [];
      r
  }

  /** The first position `array_slice($a, $offset, ...)` takes. */
  function SliceStart(count: nat, offset: nat): nat {
    if offset < count then offset else count
  }

  /** One past the last position taken: `length` entries from the start,
      clamped to the end; to the end when the length is NULL. */
  function SliceEnd(count: nat, offset: nat, length: Option<nat>): (e: nat)
    ensures SliceStart(count, offset) <= e <= count
  {
    match length
    case None => count
    case Some(l) => if offset + l < count then offset + l else count
  }

  /** `r` holds the pairs of `a` at positions `[s, e)` in order, with the same
      values, the same string keys, and the integer keys replaced by 0, 1, 2, ...
      in the order they occur. */
  ghost predicate IsRenumberedRun<V>(r: seq<Entry<V>>, a: seq<Entry<V>>, s: nat, e: nat)
    requires s <= e <= |a|
  {
    && |r| == e - s
    && (forall i :: 0 <= i < |r| ==> r[i].1 == a[s + i].1)
    && (forall i :: 0 <= i < |r| && a[s + i].0.StrKey? ==> r[i].0 == a[s + i].0)
    && (forall i :: 0 <= i < |r| && a[s + i].0.IntKey? ==> r[i].0 == IntKey(CountIntKeys(a[s..s + i])))
  }

  /** Reference description of `array_slice($a, $offset, $length)` with keys not
      preserved: the renumbered run from the offset, clamped to the array, of
      `length` pairs or, without a length, up to the end. */
  ghost predicate IsSliceOf<V>(r: seq<Entry<V>>, a: seq<Entry<V>>, offset: nat, length: Option<nat>) {
    IsRenumberedRun(r, a, SliceStart(|a|, offset), SliceEnd(|a|, offset, length))
  }

  /** Renumbering from zero cannot make two keys collide. */
  lemma {:induction false} RenumberKeepsKeysDistinct<V>(a: seq<Entry<V>>)
    requires DistinctKeys(a)
    ensures DistinctKeys(Renumber(a, 0))
  {
    var r := Renumber(a, 0);
    forall i, j | 0 <= i < j < |r|
      ensures r[i].0 != r[j].0
    {
      if a[i].0.IntKey? && a[j].0.IntKey? {
        CountIntKeysGrows(a, i, j);
      }
    }
  }

  /** The pairs at positions `[s, e)` of an array with distinct keys,
      renumbered from zero, again have distinct keys. */
  lemma {:induction false} WindowKeepsKeysDistinct<V>(a: PhpArray<V>, s: nat, e: nat)
    requires s <= e <= |a|
    ensures DistinctKeys(Renumber(a[s..e], 0))
  {
    var w := a[s..e];
    forall i, j | 0 <= i < j < |w| ensures w[i].0 != w[j].0 {
      assert w[i] == a[s + i] && w[j] == a[s + j];
    }
    RenumberKeepsKeysDistinct(w);
  }

  /** Renumbering the pairs at positions `[s, e)` gives the renumbered run. */
  lemma {:induction false} WindowIsRenumberedRun<V>(a: seq<Entry<V>>, s: nat, e: nat)
    requires s <= e <= |a|
    ensures IsRenumberedRun(Renumber(a[s..e], 0), a, s, e)
  {
    var w := a[s..e];
    assert forall i :: 0 <= i < |w| ==> w[i] == a[s + i];
    assert forall i :: 0 <= i < |w| ==> w[..i] == a[s..s + i];
  }

  /** `array_slice($a, $offset, $length)` with `preserve_keys` false, for a
      non-negative offset and length (a NULL length reads to the end). */
  function ArraySlice<V>(a: PhpArray<V>, offset: nat, length: Option<nat>): (r: PhpArray<V>)
    ensures IsSliceOf(r, a, offset, length)
  {
    var s := SliceStart(|a|, offset);
    var e := SliceEnd(|a|, offset, length);
    WindowKeepsKeysDistinct(a, s, e);
    WindowIsRenumberedRun(a, s, e);
    Renumber(a[s..e], 0)
  }

  /** The reference description fixes the result completely. */
  lemma SliceIsDetermined<V>(r1: seq<Entry<V>>, r2: seq<Entry<V>>, a: seq<Entry<V>>, offset: nat, length: Option<nat>)
    requires IsSliceOf(r1, a, offset, length)
    requires IsSliceOf(r2, a, offset, length)
    ensures r1 == r2
  {
  }

  /** The number of entries `array_slice` returns: `min(length, count - offset)`,
      or `count - offset` without a length, and none once the offset reaches
      the end. */
  lemma SliceSize<V>(a: PhpArray<V>, offset: nat, length: Option<nat>)
    ensures offset >= |a| ==> ArraySlice(a, offset, length) == []
    ensures offset < |a| && length.None? ==> |ArraySlice(a, offset, length)| == |a| - offset
    ensures offset < |a| && length.Some? ==>
      |ArraySlice(a, offset, length)| == (if length.value < |a| - offset then length.value else |a| - offset)
  {
  }

  /** A renumbered run taken from a packed list is the packed list of the
      values at those positions. */
  lemma {:induction false} RunOfList<V>(r: seq<Entry<V>>, vs: seq<V>, s: nat, e: nat)
    requires s <= e <= |vs|
    requires IsRenumberedRun(r, List(vs), s, e)
    ensures |r| == e - s
    ensures forall i :: 0 <= i < |r| ==> r[i] == (IntKey(i), vs[s + i])
  {
    var a := List(vs);
    forall i | 0 <= i < |r| ensures r[i] == (IntKey(i), vs[s + i]) {
      var run := a[s..s + i];
      assert forall k :: 0 <= k < |run| ==> run[k].0.IntKey? by {
        forall k | 0 <= k < |run| ensures run[k].0.IntKey? {
          assert run[k] == a[s + k];
        }
      }
      CountIntKeysAllInt(run);
    }
  }

  /** A packed list is the only array holding its values under the keys 0, 1, .... */
  lemma ListIsDetermined<V>(a: seq<Entry<V>>, vs: seq<V>)
    requires |a| == |vs|
    requires forall i :: 0 <= i < |a| ==> a[i] == (IntKey(i), vs[i])
    ensures a == List(vs)
  {
  }

  /** Slicing a packed list gives the packed list of the selected values. */
  lemma {:induction false} SliceOfList<V>(vs: seq<V>, offset: nat, length: Option<nat>)
    ensures ArraySlice(List(vs), offset, length)
         == List(vs[SliceStart(|vs|, offset)..SliceEnd(|vs|, offset, length)])
  {
    var s := SliceStart(|vs|, offset);
    var r := ArraySlice(List(vs), offset, length);
    RunOfList(r, vs, s, SliceEnd(|vs|, offset, length));
    ListIsDetermined(r, vs[s..SliceEnd(|vs|, offset, length)]);
  }

  /** Slicing an array whose keys are all strings keeps the selected pairs as
      they are. */
  lemma SliceOfStringKeyed<V>(a: PhpArray<V>, offset: nat, length: Option<nat>)
    requires forall i :: 0 <= i < |a| ==> a[i].0.StrKey?
    ensures ArraySlice(a, offset, length) == a[SliceStart(|a|, offset)..SliceEnd(|a|, offset, length)]
  {
  }
}
