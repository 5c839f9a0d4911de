/**
 * The array helpers of `ImporterBundle\Util\ArrayUtil` (src/ArrayUtilCopy.php).
 *
 * By-reference array parameters are passed in and handed back, as in
 * module ArrayUtil. Property access (Symfony's PropertyAccessor and the
 * dot-notation accessor) is a function parameter `prop`.
 * `arrayPluck` of this file is the same code as ArrayUtil.Pluck.
 */
module ArrayUtilCopy {
  import opened Php

  /**
   * `arraySetIfUnset(&$array, $path, $value)`: a key holding a non-null
   * value is left alone; otherwise `$array[$path] = $value`, in place when
   * the key holds null and appended when it is absent.
   */
  method SetIfUnset(a: PArray, path: Key, value: Value) returns (r: PArray)
    ensures IsSet(a, path) ==> r == a
    ensures !IsSet(a, path) ==> Get(r, path) == Some(value)
    ensures forall k :: k != path ==> Get(r, k) == Get(a, k)
    ensures !HasKey(a, path) ==> r == a + [Entry(path, value)]
    ensures HasKey(a, path) ==> |r| == |a| && forall i :: 0 <= i < |a| ==> r[i].key == a[i].key
    ensures UniqueKeys(a) ==> UniqueKeys(r)
  {
    if IsSet(a, path) {
      return a;
    }
    r := Assign(a, path, value);
    AssignAppendsOrKeepsLength(a, path, value);
    if UniqueKeys(a) {
      AssignUnique(a, path, value);
    }
  }

  /**
   * `$item[$key]` on one element, or None where PHP throws an Error.
   * An array gives its entry, or null when the key is missing. A string
   * gives the one-character string at an integer offset (a negative one
   * counts from the end), or "" when the offset is out of range; a string
   * offset that is not an integer throws. An object that is array-like
   * answers through its `offsetGet`, and any other object throws. Every
   * other value reads as null.
   */
  function Index(item: Value, key: Key, offsetGet: (nat, Key) -> Value): Option<Value> {
    match item
    case Arr(es) => Some(if HasKey(es, key) then Get(es, key).value else Null)
    case Str(s) =>
      if key.StrKey? then None
      else if 0 <= key.i < |s| then Some(Str([s[key.i]]))
      else if -|s| <= key.i < 0 then Some(Str([s[|s| + key.i]]))
      else Some(Str(""))
    case Obj(id, arrayLike, _) => if arrayLike then Some(offsetGet(id, key)) else None
    case _ => Some(Null)
  }

  /** A string element gives the character at an offset, counted from either end. */
  lemma StringOffset(s: string, i: nat, offsetGet: (nat, Key) -> Value)
    requires i < |s|
    ensures Index(Str(s), IntKey(i), offsetGet) == Some(Str([s[i]]))
    ensures Index(Str(s), IntKey(i - |s|), offsetGet) == Some(Str([s[i]]))
    ensures Index(Str(s), IntKey(|s|), offsetGet) == Some(Str(""))
  {
  }

  /**
   * `arrayGetRecursive`: `array_map` of `$item[$key]`, which keeps the keys
   * of the array; None when reading some element throws.
   */
  function GetRecursive(a: PArray, key: Key, offsetGet: (nat, Key) -> Value): (r: Option<PArray>)
    ensures r.Some? <==> forall i :: 0 <= i < |a| ==> Index(a[i].value, key, offsetGet).Some?
    ensures r.Some? ==> |r.value| == |a| && forall i :: 0 <= i < |a| ==> r.value[i].key == a[i].key
  {
    if forall i :: 0 <= i < |a| ==> Index(a[i].value, key, offsetGet).Some? then
      Some(seq(|a|, i requires 0 <= i < |a| => Entry(a[i].key, Index(a[i].value, key, offsetGet).value)))
    else None
  }

  /** Looking up any key of the mapped array gives the mapped value of the original entry. */
  lemma {:induction false} GetRecursiveLookup(a: PArray, key: Key, offsetGet: (nat, Key) -> Value, k: Key)
    requires GetRecursive(a, key, offsetGet).Some?
    ensures Get(GetRecursive(a, key, offsetGet).value, k).Some? <==> Get(a, k).Some?
    ensures Get(a, k).Some? ==> Some(Get(GetRecursive(a, key, offsetGet).value, k).value) == Index(Get(a, k).value, key, offsetGet)
  {
    if a != [] {
      var r := GetRecursive(a, key, offsetGet).value;
      assert r[0] == Entry(a[0].key, Index(a[0].value, key, offsetGet).value);
      assert forall i :: 0 <= i < |a[1..]| ==> a[1..][i] == a[i + 1];
      GetRecursiveLookup(a[1..], key, offsetGet, k);
      assert r[1..] == GetRecursive(a[1..], key, offsetGet).value;
      if a[0].key == k {
        assert Get(r, k) == Some(r[0].value);
        assert Get(a, k) == Some(a[0].value);
      } else {
        assert Get(r, k) == Get(r[1..], k);
        assert Get(a, k) == Get(a[1..], k);
      }
    }
  }

  /** `arrayGetRecursive(['abc'], 0)` reads the first character of the string. */
  lemma GetRecursiveOfString(offsetGet: (nat, Key) -> Value)
    ensures GetRecursive([Entry(IntKey(0), Str("abc"))], IntKey(0), offsetGet) == Some([Entry(IntKey(0), Str("a"))])
  {
    var a := [Entry(IntKey(0), Str("abc"))];
    assert Index(a[0].value, IntKey(0), offsetGet) == Some(Str([a[0].value.s[0]])) == Some(Str("a"));
    var r := GetRecursive(a, IntKey(0), offsetGet);
    assert r.value[0] == Entry(IntKey(0), Str("a"));
    assert r.value == [Entry(IntKey(0), Str("a"))];
  }

  /** An element the search looks past: reading it works and gives something other than the expected value. */
  predicate Passes(item: Value, key: Key, expected: Value, offsetGet: (nat, Key) -> Value) {
    Index(item, key, offsetGet).Some? && Index(item, key, offsetGet).value != expected
  }

  /**
   * `arraySearchRecursive`: the first element whose `[$key]` is identical
   * to expected, or null when none is; None when reading an element throws
   * before a match is found.
   */
  method SearchRecursive(a: PArray, key: Key, expected: Value, offsetGet: (nat, Key) -> Value) returns (r: Option<Value>)
    ensures (forall i :: 0 <= i < |a| ==> Passes(a[i].value, key, expected, offsetGet)) ==> r == Some(Null)
    ensures forall i :: 0 <= i < |a| && (forall j :: 0 <= j < i ==> Passes(a[j].value, key, expected, offsetGet)) ==>
              (Index(a[i].value, key, offsetGet).None? ==> r.None?)
              && (Index(a[i].value, key, offsetGet) == Some(expected) ==> r == Some(a[i].value))
  {
    var i := 0;
    while i < |a|
      invariant 0 <= i <= |a|
      invariant forall j :: 0 <= j < i ==> Passes(a[j].value, key, expected, offsetGet)
    {
      var v := Index(a[i].value, key, offsetGet);
      if v.None? {
        return None;
      }
      if v.value == expected {
        return Some(a[i].value);
      }
      i := i + 1;
    }
    return Some(Null);
  }

  /** `isArrayLike`: an array, or an object that is ArrayAccess, Traversable and Countable. */
  predicate IsArrayLike(v: Value) {
    v.Arr? || (v.Obj? && v.arrayLike)
  }

  /** `arrayCast($item, $default)`. */
  function Cast(item: Value, default: Value): (r: Value)
    ensures item == Null ==> r == default
    ensures item != Null && !IsArrayLike(item) ==> r == Arr([Entry(IntKey(0), item)])
    ensures IsArrayLike(item) ==> r == item
  {
    if item == Null then default
    else if !IsArrayLike(item) then Arr([Entry(IntKey(0), item)])
    else item
  }

  /** Casting a non-null value yields something array-like, and casting that again changes nothing. */
  lemma CastIdempotent(item: Value, default: Value)
    requires item != Null
    ensures IsArrayLike(Cast(item, default))
    ensures Cast(Cast(item, default), default) == Cast(item, default)
  {
  }

  /** The property values of the elements, in order: the `$arr` that `arrayDeduplicateByProperty` builds. */
  function Props(a: PArray, prop: Value -> Value): (ps: seq<Value>)
    ensures |ps| == |a| && forall i :: 0 <= i < |a| ==> ps[i] == prop(a[i].value)
  {
    seq(|a|, i requires 0 <= i < |a| => prop(a[i].value))
  }

  /** The entries whose property value no earlier entry has. */
  function KeepFirst(a: PArray, prop: Value -> Value): PArray
    decreases |a|
  {
    if a == [] then []
    else
      var init := a[..|a| - 1];
      var last := a[|a| - 1];
      KeepFirst(init, prop) + (if prop(last.value) in Props(init, prop) then [] else [last])
  }

  /**
   * `arrayDeduplicateByProperty(&$array, $path)`: unsets every element whose
   * property value an earlier element had, and returns `array_values` of
   * what is left; remaining is the caller's array afterwards.
   */
  method DeduplicateByProperty(a: PArray, prop: Value -> Value) returns (remaining: PArray, r: PArray)
    requires UniqueKeys(a)
    ensures remaining == KeepFirst(a, prop)
    ensures r == Reindex(Values(remaining))
  {
    remaining := a;
    var seen: seq<Value> := [];
    var i := 0;
    while i < |a|
      invariant 0 <= i <= |a|
      invariant seen == Props(a[..i], prop)
      invariant remaining == KeepFirst(a[..i], prop) + a[i..]
    {
      var p := prop(a[i].value);
      DeduplicateStep(a, prop, i, seen, remaining);
      if p in seen {
        remaining := Unset(remaining, a[i].key);
      }
      seen := seen + [p];
      i := i + 1;
    }
    assert a[..|a|] == a;
    r := Reindex(Values(remaining));
  }

  /** One iteration of the deduplicating loop moves the boundary between the kept prefix and the untouched rest by one. */
  lemma DeduplicateStep(a: PArray, prop: Value -> Value, i: nat, seen: seq<Value>, remaining: PArray)
    requires UniqueKeys(a) && i < |a|
    requires seen == Props(a[..i], prop) && remaining == KeepFirst(a[..i], prop) + a[i..]
    ensures seen + [prop(a[i].value)] == Props(a[..i + 1], prop)
    ensures prop(a[i].value) in seen ==> Unset(remaining, a[i].key) == KeepFirst(a[..i + 1], prop) + a[i + 1..]
    ensures prop(a[i].value) !in seen ==> remaining == KeepFirst(a[..i + 1], prop) + a[i + 1..]
  {
    var pre, e, post := a[..i], a[i], a[i + 1..];
    assert a[..i + 1][..i] == pre && a[..i + 1][i] == e;
    assert a[i..] == [e] + post;
    var k := KeepFirst(pre, prop);
    assert KeepFirst(a[..i + 1], prop) == k + (if prop(e.value) in Props(pre, prop) then [] else [e]);
    AppendAssoc(k, [e], post);
    if prop(e.value) in Props(pre, prop) {
      NoOtherKey(a, prop, i);
      calc {
        Unset(k + a[i..], e.key);
        Unset(k + [e] + post, e.key);
        { UnsetMiddle(k, e, post); }
        k + post;
        KeepFirst(a[..i + 1], prop) + a[i + 1..];
      }
    }
  }

  lemma NoOtherKey(a: PArray, prop: Value -> Value, i: nat)
    requires UniqueKeys(a) && i < |a|
    ensures forall x :: x in KeepFirst(a[..i], prop) ==> x.key != a[i].key
    ensures !HasKey(a[i + 1..], a[i].key)
  {
    KeepFirstIn(a[..i], prop);
    forall x | x in KeepFirst(a[..i], prop) ensures x.key != a[i].key {
      var j :| 0 <= j < i && a[..i][j] == x;
      assert a[j] == x;
    }
  }

  /** Unsetting the key of an element whose key occurs nowhere else removes just that element. */
  lemma {:induction false} UnsetMiddle(pre: PArray, e: Entry, post: PArray)
    requires forall x :: x in pre ==> x.key != e.key
    requires !HasKey(post, e.key)
    ensures Unset(pre + [e] + post, e.key) == pre + post
  {
    var s := pre + [e] + post;
    if pre == [] {
      assert s[0] == e && s[1..] == post;
    } else {
      assert pre[0] in pre;
      UnsetMiddle(pre[1..], e, post);
      assert s[0] == pre[0] && s[1..] == pre[1..] + [e] + post;
      assert pre == [pre[0]] + pre[1..];
      AppendAssoc([pre[0]], pre[1..], post);
    }
  }

  /** Every kept entry is an entry of the array. */
  lemma {:induction false} KeepFirstIn(a: PArray, prop: Value -> Value)
    ensures forall x :: x in KeepFirst(a, prop) ==> x in a
    decreases |a|
  {
    if a != [] {
      var init := a[..|a| - 1];
      KeepFirstIn(init, prop);
      assert forall x :: x in init ==> x in a;
    }
  }

  /** The kept entries keep the order they have in the array. */
  lemma {:induction false} KeepFirstOrdered(a: PArray, prop: Value -> Value)
    ensures Subsequence(KeepFirst(a, prop), a)
    decreases |a|
  {
    if a != [] {
      var init := a[..|a| - 1];
      var last := a[|a| - 1];
      KeepFirstOrdered(init, prop);
      assert init + [last] == a;
      SubsequenceSnoc(KeepFirst(init, prop), init, last);
      if prop(last.value) in Props(init, prop) {
        assert KeepFirst(a, prop) == KeepFirst(init, prop);
      } else {
        assert KeepFirst(a, prop) == KeepFirst(init, prop) + [last];
      }
    }
  }

  /** No two kept entries share a property value. */
  lemma {:induction false} KeepFirstDistinct(a: PArray, prop: Value -> Value)
    ensures forall i, j :: 0 <= i < j < |KeepFirst(a, prop)| ==>
              prop(KeepFirst(a, prop)[i].value) != prop(KeepFirst(a, prop)[j].value)
    decreases |a|
  {
    if a != [] {
      var init := a[..|a| - 1];
      var last := a[|a| - 1];
      KeepFirstDistinct(init, prop);
      KeepFirstIn(init, prop);
      var k := KeepFirst(init, prop);
      if prop(last.value) !in Props(init, prop) {
        forall i | 0 <= i < |k| ensures prop(k[i].value) != prop(last.value) {
          assert k[i] in init;
          var j :| 0 <= j < |init| && init[j] == k[i];
          assert Props(init, prop)[j] == prop(k[i].value);
        }
      }
    }
  }

  /**
   * An element survives exactly when no element before it has the same
   * property value: the first element of each property value is kept.
   */
  lemma {:induction false} KeepFirstExactly(a: PArray, prop: Value -> Value, i: nat)
    requires UniqueKeys(a) && i < |a|
    ensures a[i] in KeepFirst(a, prop) <==> forall j :: 0 <= j < i ==> prop(a[j].value) != prop(a[i].value)
    decreases |a|
  {
    var init := a[..|a| - 1];
    var last := a[|a| - 1];
    KeepFirstIn(init, prop);
    if i < |a| - 1 {
      assert a[i] != last by {
        assert a[i].key != a[|a| - 1].key;
      }
      assert init[i] == a[i];
      KeepFirstExactly(init, prop, i);
    } else {
      assert last !in init;
      if prop(last.value) in Props(init, prop) {
        var j :| 0 <= j < |init| && Props(init, prop)[j] == prop(last.value);
        assert Props(init, prop)[j] == prop(init[j].value) && init[j] == a[j];
        assert last == a[i];
      }
    }
  }

  /** The bucket entries stored under k, or none yet. */
  function BucketEntries(buckets: PArray, k: Key): PArray {
    match Get(buckets, k)
    case Some(Arr(es)) => es
    case _ => []
  }

  /**
   * One iteration of `arrayPartitionByDistinctProperty`: an element whose
   * property value is falsy goes nowhere; otherwise it is appended to the
   * bucket under that value, which is created empty first when unset.
   * None: the value is an array or object, an illegal array offset.
   */
  function Place(buckets: PArray, element: Value, prop: Value -> Value): Option<PArray> {
    var v := prop(element);
    if !Truthy(v) then Some(buckets)
    else
      match OffsetKey(v)
      case None => None
      case Some(k) =>
        var es := BucketEntries(buckets, k);
        Some(Assign(buckets, k, Arr(es + [Entry(IntKey(|es|), element)])))
  }

  /** The buckets after placing every element in turn, starting from none. */
  function PartitionSpec(elements: seq<Value>, prop: Value -> Value): Option<PArray>
    decreases |elements|
  {
    if elements == [] then Some([])
    else
      match PartitionSpec(elements[..|elements| - 1], prop)
      case None => None
      case Some(b) => Place(b, elements[|elements| - 1], prop)
  }

  /** The elements, in order, whose property value is truthy and names key k. */
  function Bucket(elements: seq<Value>, prop: Value -> Value, k: Key): seq<Value>
    decreases |elements|
  {
    if elements == [] then []
    else
      var last := elements[|elements| - 1];
      Bucket(elements[..|elements| - 1], prop, k)
        + (if Truthy(prop(last)) && OffsetKey(prop(last)) == Some(k) then [last] else [])
  }

  /** `arrayPartitionByDistinctProperty($array, $property)`. */
  method PartitionByDistinctProperty(a: PArray, prop: Value -> Value) returns (r: Option<PArray>)
    ensures r == PartitionSpec(Values(a), prop)
  {
    var elements := Values(a);
    var buckets: PArray := [];
    var i := 0;
    while i < |elements|
      invariant 0 <= i <= |elements|
      invariant PartitionSpec(elements[..i], prop) == Some(buckets)
    {
      assert elements[..i + 1][..i] == elements[..i];
      var next := Place(buckets, elements[i], prop);
      if next.None? {
        PartitionFailureStays(elements, prop, i + 1);
        return None;
      }
      buckets := next.value;
      i := i + 1;
    }
    assert elements[..|elements|] == elements;
    return Some(buckets);
  }

  /** Once an element cannot be placed, the whole partition fails. */
  lemma {:induction false} PartitionFailureStays(elements: seq<Value>, prop: Value -> Value, n: nat)
    requires n <= |elements| && PartitionSpec(elements[..n], prop) == None
    ensures PartitionSpec(elements, prop) == None
    decreases |elements| - n
  {
    if n < |elements| {
      assert elements[..n + 1][..n] == elements[..n];
      PartitionFailureStays(elements, prop, n + 1);
    } else {
      assert elements[..n] == elements;
    }
  }

  /** The partition succeeds exactly when no truthy property value is an array or object. */
  lemma {:induction false} PartitionSucceeds(elements: seq<Value>, prop: Value -> Value)
    ensures PartitionSpec(elements, prop).Some? <==>
              forall i :: 0 <= i < |elements| && Truthy(prop(elements[i])) ==> OffsetKey(prop(elements[i])).Some?
    decreases |elements|
  {
    if elements != [] {
      var init := elements[..|elements| - 1];
      var last := elements[|elements| - 1];
      PartitionSucceeds(init, prop);
      assert forall i :: 0 <= i < |init| ==> elements[i] == init[i];
      if PartitionSpec(init, prop).None? {
        var i :| 0 <= i < |init| && Truthy(prop(init[i])) && OffsetKey(prop(init[i])).None?;
        assert elements[i] == init[i];
      } else {
        assert PartitionSpec(elements, prop) == Place(PartitionSpec(init, prop).value, last, prop);
      }
    }
  }

  /**
   * After a successful partition each key holds, reindexed from 0 and in
   * their original order, exactly the elements whose truthy property value
   * names it; a key that no element names is absent.
   */
  lemma {:induction false} PartitionBuckets(elements: seq<Value>, prop: Value -> Value, k: Key)
    requires PartitionSpec(elements, prop).Some?
    ensures Get(PartitionSpec(elements, prop).value, k) ==
              if Bucket(elements, prop, k) == [] then None else Some(Arr(Reindex(Bucket(elements, prop, k))))
    decreases |elements|
  {
    if elements != [] {
      var init := elements[..|elements| - 1];
      var last := elements[|elements| - 1];
      assert PartitionSpec(init, prop).Some?;
      PartitionBuckets(init, prop, k);
      var b := PartitionSpec(init, prop).value;
      var v := prop(last);
      var r := PartitionSpec(elements, prop).value;
      assert Place(b, last, prop) == Some(r);
      var bucket := Bucket(init, prop, k);
      if !Truthy(v) {
        assert r == b;
        assert Bucket(elements, prop, k) == bucket;
      } else {
        var k' := OffsetKey(v).value;
        var es := BucketEntries(b, k');
        assert r == Assign(b, k', Arr(es + [Entry(IntKey(|es|), last)]));
        if k' == k {
          PlaceInBucket(b, last, prop, bucket);
          assert Bucket(elements, prop, k) == bucket + [last];
        } else {
          assert Get(r, k) == Get(b, k);
          assert Bucket(elements, prop, k) == bucket;
        }
      }
    }
  }

  /** Placing an element appends it, under the next index, to the bucket its property value names. */
  lemma PlaceInBucket(b: PArray, element: Value, prop: Value -> Value, bucket: seq<Value>)
    requires Truthy(prop(element)) && OffsetKey(prop(element)).Some?
    requires Get(b, OffsetKey(prop(element)).value) == if bucket == [] then None else Some(Arr(Reindex(bucket)))
    ensures Place(b, element, prop).Some?
    ensures Get(Place(b, element, prop).value, OffsetKey(prop(element)).value) == Some(Arr(Reindex(bucket + [element])))
  {
    var k := OffsetKey(prop(element)).value;
    assert BucketEntries(b, k) == Reindex(bucket);
    ReindexSnoc(bucket, element);
  }

  /** `array_diff_key($x, $y)`: the entries of x whose key y lacks. */
  function DiffKey(x: PArray, y: PArray): (r: PArray)
    ensures r != [] <==> exists i :: 0 <= i < |x| && !HasKey(y, x[i].key)
  {
    var r := FilterKeys(x, (k: Key) => !HasKey(y, k));
    assert r != [] ==> r[0] in r;
    r
  }

  /**
   * Whether an entry of array2 belongs in `arrayDiffKeyRecursive`'s result:
   * its key is not a key of array1, or its value has a key that array1's
   * value under that key lacks. None: one of the two values handed to
   * `array_diff_key` is not an array.
   */
  function Differs(first: PArray, e: Entry): Option<bool> {
    if !HasKey(first, e.key) then Some(true)
    else
      match (e.value, Get(first, e.key).value)
      case (Arr(x), Arr(y)) => Some(DiffKey(x, y) != [])
      case _ => None
  }

  /** The difference built over the entries of array2 in turn. */
  function DiffKeyRecursiveSpec(first: PArray, second: PArray): Option<PArray>
    decreases |second|
  {
    if second == [] then Some([])
    else
      var last := second[|second| - 1];
      match DiffKeyRecursiveSpec(first, second[..|second| - 1])
      case None => None
      case Some(d) =>
        match Differs(first, last)
        case None => None
        case Some(keep) => Some(if keep then d + [last] else d)
  }

  /** `arrayDiffKeyRecursive($array1, $array2)`, with first and second for the two arrays. */
  method DiffKeyRecursive(first: PArray, second: PArray) returns (r: Option<PArray>)
    requires UniqueKeys(second)
    ensures r == DiffKeyRecursiveSpec(first, second)
  {
    var difference: PArray := [];
    var i := 0;
    while i < |second|
      invariant 0 <= i <= |second|
      invariant DiffKeyRecursiveSpec(first, second[..i]) == Some(difference)
    {
      var e := second[i];
      assert second[..i + 1][..i] == second[..i] && second[..i + 1][i] == e;
      var keep := Differs(first, e);
      if keep.None? {
        DiffFailureStays(first, second, i + 1);
        return None;
      }
      if keep.value {
        DiffKeyFresh(first, second, i);
        AssignAppendsOrKeepsLength(difference, e.key, e.value);
        difference := Assign(difference, e.key, e.value);
      }
      i := i + 1;
    }
    assert second[..|second|] == second;
    return Some(difference);
  }

  /** The difference over the entries before array2's i-th holds no entry under its key. */
  lemma DiffKeyFresh(first: PArray, second: PArray, i: nat)
    requires UniqueKeys(second) && i < |second| && DiffKeyRecursiveSpec(first, second[..i]).Some?
    ensures !HasKey(DiffKeyRecursiveSpec(first, second[..i]).value, second[i].key)
  {
    var d := DiffKeyRecursiveSpec(first, second[..i]).value;
    DiffKeyRecursiveMembers(first, second[..i]);
    forall j | 0 <= j < |d| ensures d[j].key != second[i].key {
      assert d[j] in second[..i];
    }
  }

  /** Once an entry cannot be compared, the whole difference fails. */
  lemma {:induction false} DiffFailureStays(first: PArray, second: PArray, n: nat)
    requires n <= |second| && DiffKeyRecursiveSpec(first, second[..n]) == None
    ensures DiffKeyRecursiveSpec(first, second) == None
    decreases |second| - n
  {
    if n < |second| {
      assert second[..n + 1][..n] == second[..n];
      DiffFailureStays(first, second, n + 1);
    } else {
      assert second[..n] == second;
    }
  }

  /**
   * The difference is computed exactly when every entry of array2 whose
   * key array1 has holds an array, as array1 does under that key; then it
   * holds, in array2's order, exactly the entries of array2 whose key
   * array1 lacks or whose value has a key array1's value lacks.
   */
  lemma {:induction false} DiffKeyRecursiveMembers(first: PArray, second: PArray)
    ensures DiffKeyRecursiveSpec(first, second).Some? <==>
              forall i :: 0 <= i < |second| && HasKey(first, second[i].key) ==>
                second[i].value.Arr? && Get(first, second[i].key).value.Arr?
    ensures DiffKeyRecursiveSpec(first, second).Some? ==>
              forall e :: e in DiffKeyRecursiveSpec(first, second).value <==>
                e in second && Differs(first, e) == Some(true)
    ensures DiffKeyRecursiveSpec(first, second).Some? ==>
              Subsequence(DiffKeyRecursiveSpec(first, second).value, second)
    decreases |second|
  {
    if second != [] {
      var init := second[..|second| - 1];
      var last := second[|second| - 1];
      assert second == init + [last];
      assert forall i :: 0 <= i < |init| ==> second[i] == init[i];
      DiffKeyRecursiveMembers(first, init);
      if DiffKeyRecursiveSpec(first, init).Some? {
        var d := DiffKeyRecursiveSpec(first, init).value;
        SubsequenceSnoc(d, init, last);
      } else {
        var i :| 0 <= i < |init| && HasKey(first, init[i].key) &&
                 !(init[i].value.Arr? && Get(first, init[i].key).value.Arr?);
        assert second[i] == init[i];
      }
    }
  }

  /** The values the `while` loop walks: array2's, padded as the `for` loop does. */
  function Padded(first: PArray, second: PArray): (vs: seq<Value>)
    ensures |vs| == if |first| > |second| then |first| else |second|
  {
    var vs := Values(second);
    if |first| > |vs| then vs + Repeat(LastValue(second), |first| - |vs|) else vs
  }

  /** `end($array2)`: the last value, or false for an empty array. */
  function LastValue(a: PArray): Value {
    if a == [] then Bool(false) else a[|a| - 1].value
  }

  function Repeat<T>(x: T, n: nat): (r: seq<T>)
    ensures |r| == n && forall i :: 0 <= i < n ==> r[i] == x
  {
    seq(n, _ => x)
  }

  /**
   * The `while` loop of `arrayCombineKeys` from position i on:
   * `$ret[key] = value` for the keys and values in step, until either side
   * runs out or a value is `false`.
   */
  function ZipAssign(acc: PArray, ks: seq<Key>, vs: seq<Value>, i: nat): PArray
    decreases |ks| - i
  {
    if i >= |ks| || i >= |vs| || vs[i] == Bool(false) then acc
    else ZipAssign(Assign(acc, ks[i], vs[i]), ks, vs, i + 1)
  }

  /**
   * `arrayCombineKeys` as written: `key($array1)` is null, never false,
   * once array1 is exhausted, so the loop only stops on the values, and
   * values beyond array1's keys are stored under the key "" (`$ret[null]`).
   */
  function CombineKeysAsWritten(first: PArray, second: PArray): PArray {
    var vs := Padded(first, second);
    ZipAssign([], KeysOf(first) + Repeat(StrKey(""), |vs| - |first|), vs, 0)
  }

  /** What `arrayCombineKeys` is meant to compute: the loop stops once array1's keys run out. */
  function CombineKeysSpec(first: PArray, second: PArray): PArray {
    ZipAssign([], KeysOf(first), Padded(first, second), 0)
  }

  /** Array1 with one key and array2 with two values: the written loop adds an entry under "". */
  lemma CombineKeysAsWrittenExtraKey()
    ensures CombineKeysAsWritten([Entry(StrKey("a"), Int(1))], [Entry(IntKey(0), Int(10)), Entry(IntKey(1), Int(20))])
            == [Entry(StrKey("a"), Int(10)), Entry(StrKey(""), Int(20))]
    ensures CombineKeysSpec([Entry(StrKey("a"), Int(1))], [Entry(IntKey(0), Int(10)), Entry(IntKey(1), Int(20))])
            == [Entry(StrKey("a"), Int(10))]
  {
    var first := [Entry(StrKey("a"), Int(1))];
    var second := [Entry(IntKey(0), Int(10)), Entry(IntKey(1), Int(20))];
    assert Values(second) == [Int(10), Int(20)];
    assert KeysOf(first) == [StrKey("a")];
    assert KeysOf(first) + Repeat(StrKey(""), 1) == [StrKey("a"), StrKey("")];
    ZipTwoKeys();
    ZipOneKey();
  }

  lemma ZipTwoKeys()
    ensures ZipAssign([], [StrKey("a"), StrKey("")], [Int(10), Int(20)], 0)
            == [Entry(StrKey("a"), Int(10)), Entry(StrKey(""), Int(20))]
  {
    assert Assign([], StrKey("a"), Int(10)) == [Entry(StrKey("a"), Int(10))];
    ZipSecondKey();
  }

  lemma ZipSecondKey()
    ensures ZipAssign([Entry(StrKey("a"), Int(10))], [StrKey("a"), StrKey("")], [Int(10), Int(20)], 1)
            == [Entry(StrKey("a"), Int(10)), Entry(StrKey(""), Int(20))]
  {
    assert Assign([Entry(StrKey("a"), Int(10))], StrKey(""), Int(20)) == [Entry(StrKey("a"), Int(10)), Entry(StrKey(""), Int(20))];
  }

  lemma ZipOneKey()
    ensures ZipAssign([], [StrKey("a")], [Int(10), Int(20)], 0) == [Entry(StrKey("a"), Int(10))]
  {
    assert Assign([], StrKey("a"), Int(10)) == [Entry(StrKey("a"), Int(10))];
  }

  /** The `for` loop of `arrayCombineKeys`: appends array2's last value until there are as many values as array1 has keys. */
  method PadValues(first: PArray, second: PArray) returns (vs: seq<Value>)
    ensures vs == Padded(first, second)
  {
    vs := Values(second);
    if |first| > |second| {
      var lastValue := LastValue(second);
      var countDiff := |first| - |second|;
      for i := 0 to countDiff
        invariant vs == Values(second) + Repeat(lastValue, i)
      {
        assert Repeat(lastValue, i) + [lastValue] == Repeat(lastValue, i + 1);
        vs := vs + [lastValue];
      }
    }
  }

  /**
   * `arrayCombineKeys($array1, $array2)` with the loop stopping when
   * array1's keys run out: pads array2's values with its last value while
   * array1 is longer, then assigns keys and values in step.
   */
  method CombineKeys(first: PArray, second: PArray) returns (r: PArray)
    ensures r == CombineKeysSpec(first, second)
  {
    var vs := PadValues(first, second);
    var keys := KeysOf(first);
    r := [];
    var i := 0;
    while i < |keys| && i < |vs| && vs[i] != Bool(false)
      invariant 0 <= i <= |keys| && i <= |vs|
      invariant ZipAssign(r, keys, vs, i) == ZipAssign([], keys, vs, 0)
    {
      r := Assign(r, keys[i], vs[i]);
      i := i + 1;
    }
  }

  /** The padded values: array2's, then array2's last value for each key array1 has beyond them. */
  lemma PaddedAt(first: PArray, second: PArray, i: nat)
    requires second != [] && i < |Padded(first, second)|
    ensures Padded(first, second)[i] == if i < |second| then second[i].value else second[|second| - 1].value
  {
    if i >= |second| {
      assert Padded(first, second)[i] == Repeat(LastValue(second), |first| - |second|)[i - |second|];
    }
  }

  /** The entries (ks[i], vs[i]), in order. */
  function Zipped(ks: seq<Key>, vs: seq<Value>): (es: PArray)
    requires |vs| >= |ks|
    ensures |es| == |ks| && forall i :: 0 <= i < |ks| ==> es[i] == Entry(ks[i], vs[i])
  {
    seq(|ks|, i requires 0 <= i < |ks| => Entry(ks[i], vs[i]))
  }

  /** Walking distinct fresh keys with enough non-false values appends one entry per key. */
  lemma {:induction false} ZipAssignAppends(acc: PArray, ks: seq<Key>, vs: seq<Value>, i: nat)
    requires i <= |ks| <= |vs|
    requires forall j :: i <= j < |ks| ==> vs[j] != Bool(false)
    requires forall j, l :: i <= j < l < |ks| ==> ks[j] != ks[l]
    requires forall j :: i <= j < |ks| ==> !HasKey(acc, ks[j])
    ensures ZipAssign(acc, ks, vs, i) == acc + Zipped(ks, vs)[i..]
    decreases |ks| - i
  {
    if i == |ks| {
      assert acc + Zipped(ks, vs)[i..] == acc;
    } else {
      var e := Entry(ks[i], vs[i]);
      StillFresh(acc, ks, vs, i);
      ZipAssignAppends(acc + [e], ks, vs, i + 1);
      ZippedFrom(ks, vs, i);
      AppendAssoc(acc, [e], Zipped(ks, vs)[i + 1..]);
    }
  }

  /** The zipped entries from position i on: the i-th pair, then the rest. */
  lemma ZippedFrom(ks: seq<Key>, vs: seq<Value>, i: nat)
    requires i < |ks| <= |vs|
    ensures Zipped(ks, vs)[i..] == [Entry(ks[i], vs[i])] + Zipped(ks, vs)[i + 1..]
  {
    var z := Zipped(ks, vs);
    assert z[i..] == [z[i]] + z[i + 1..];
  }

  /** After assigning the i-th of distinct fresh keys, the later ones are still fresh. */
  lemma StillFresh(acc: PArray, ks: seq<Key>, vs: seq<Value>, i: nat)
    requires i < |ks| && i < |vs|
    requires forall j, l :: i <= j < l < |ks| ==> ks[j] != ks[l]
    requires forall j :: i <= j < |ks| ==> !HasKey(acc, ks[j])
    ensures Assign(acc, ks[i], vs[i]) == acc + [Entry(ks[i], vs[i])]
    ensures forall j :: i < j < |ks| ==> !HasKey(acc + [Entry(ks[i], vs[i])], ks[j])
  {
    var acc' := Assign(acc, ks[i], vs[i]);
    AssignAppendsOrKeepsLength(acc, ks[i], vs[i]);
    forall j | i < j < |ks| ensures !HasKey(acc', ks[j]) {
      assert Get(acc', ks[j]) == Get(acc, ks[j]);
    }
  }

  /**
   * With a non-empty array2 holding no `false`, the combination has
   * exactly array1's keys in order, each with the value at the same
   * position of array2, or array2's last value past its end. With an empty
   * array2 it is empty.
   */
  lemma CombineKeysPositional(first: PArray, second: PArray)
    requires UniqueKeys(first)
    ensures second == [] ==> CombineKeysSpec(first, second) == []
    ensures second != [] && (forall j :: 0 <= j < |second| ==> second[j].value != Bool(false)) ==>
              CombineKeysSpec(first, second) ==
                seq(|first|, i requires 0 <= i < |first| =>
                  Entry(first[i].key, if i < |second| then second[i].value else second[|second| - 1].value))
  {
    var ks, vs := KeysOf(first), Padded(first, second);
    if second != [] && (forall j :: 0 <= j < |second| ==> second[j].value != Bool(false)) {
      PaddedNoFalse(first, second);
      ZipAssignAppends([], ks, vs, 0);
      ZippedPadded(first, second);
      assert [] + Zipped(ks, vs)[0..] == Zipped(ks, vs);
    }
  }

  /** Padding array2 with its own last value brings in no `false`. */
  lemma PaddedNoFalse(first: PArray, second: PArray)
    requires second != [] && forall j :: 0 <= j < |second| ==> second[j].value != Bool(false)
    ensures forall j :: 0 <= j < |Padded(first, second)| ==> Padded(first, second)[j] != Bool(false)
  {
    forall j | 0 <= j < |Padded(first, second)|
      ensures Padded(first, second)[j] != Bool(false)
    {
      PaddedAt(first, second, j);
    }
  }

  /** Array1's keys paired with the padded values: each key with array2's value at its position, or array2's last. */
  lemma ZippedPadded(first: PArray, second: PArray)
    requires second != []
    ensures Zipped(KeysOf(first), Padded(first, second)) ==
              seq(|first|, i requires 0 <= i < |first| =>
                Entry(first[i].key, if i < |second| then second[i].value else second[|second| - 1].value))
  {
    var ks, vs := KeysOf(first), Padded(first, second);
    var expected := seq(|first|, i requires 0 <= i < |first| =>
                      Entry(first[i].key, if i < |second| then second[i].value else second[|second| - 1].value));
    forall i | 0 <= i < |first|
      ensures Zipped(ks, vs)[i] == expected[i]
    {
      PaddedAt(first, second, i);
    }
  }

}
