/**
 * PHP values and PHP's ordered arrays, as the array helpers, the Drive
 * versioner and the bucket migration see them.
 *
 * A PHP array is an ordered list of (key, value) entries whose keys are
 * distinct; keys are what PHP leaves after its own normalisation (an
 * integer, or a string that is not a canonical decimal integer).
 */
module Php {

  datatype Option<+T> = None | Some(value: T)

  datatype Key = IntKey(i: int) | StrKey(s: string)

  /** The values the modelled code inspects; floats and resources are not modelled. */
  datatype Value =
    | Null
    | Bool(b: bool)
    | Int(i: int)
    | Str(s: string)
    | Arr(entries: seq<Entry>)
    | Obj(id: nat, arrayLike: bool, toString: Option<string>)  // arrayLike: implements ArrayAccess, Traversable and Countable;
                                                               // toString: what `__toString` returns, if the class has one

  datatype Entry = Entry(key: Key, value: Value)

  type PArray = seq<Entry>

  /** PHP's representation invariant: no key occurs twice. */
  ghost predicate UniqueKeys(a: PArray) {
    forall i, j :: 0 <= i < j < |a| ==> a[i].key != a[j].key
  }

  predicate HasKey(a: PArray, k: Key) {
    exists i :: 0 <= i < |a| && a[i].key == k
  }

  /** PHP truthiness, as `if ($v)` decides it. */
  predicate Truthy(v: Value) {
    match v
    case Null => false
    case Bool(b) => b
    case Int(i) => i != 0
    case Str(s) => s != "" && s != "0"
    case Arr(es) => es != []
    case Obj(_, _, _) => true
  }

  /** `$a[$k]` on an array: the value stored under k, if any. */
  function Get(a: PArray, k: Key): (r: Option<Value>)
    ensures r.Some? <==> HasKey(a, k)
    ensures r.Some? ==> Entry(k, r.value) in a
  {
    if a == [] then None
    else if a[0].key == k then Some(a[0].value)
    else
      var r := Get(a[1..], k);
      assert HasKey(a[1..], k) ==> HasKey(a, k);
      assert HasKey(a, k) && a[0].key != k ==> HasKey(a[1..], k) by {
        if HasKey(a, k) && a[0].key != k {
          var i :| 0 <= i < |a| && a[i].key == k;
          assert a[1..][i - 1].key == k;
        }
      }
      r
  }

  /** `isset($a[$k])`: the key is present and its value is not null. */
  predicate IsSet(a: PArray, k: Key) {
    Get(a, k).Some? && Get(a, k).value != Null
  }

  function KeysOf(a: PArray): (ks: seq<Key>)
    ensures |ks| == |a| && forall i :: 0 <= i < |a| ==> ks[i] == a[i].key
  {
    seq(|a|, i requires 0 <= i < |a| => a[i].key)
  }

  function Values(a: PArray): (vs: seq<Value>)
    ensures |vs| == |a| && forall i :: 0 <= i < |a| ==> vs[i] == a[i].value
  {
    seq(|a|, i requires 0 <= i < |a| => a[i].value)
  }

  /** `array_values`: the same values under the keys 0, 1, 2, ... */
  function Reindex(vs: seq<Value>): (r: PArray)
    ensures |r| == |vs| && forall i :: 0 <= i < |vs| ==> r[i] == Entry(IntKey(i), vs[i])
  {
    seq(|vs|, i requires 0 <= i < |vs| => Entry(IntKey(i), vs[i]))
  }

  /** Appending a value to a list appends it to its reindexed form under the next key. */
  lemma ReindexSnoc(vs: seq<Value>, v: Value)
    ensures Reindex(vs) + [Entry(IntKey(|vs|), v)] == Reindex(vs + [v])
  {
    var l, r := Reindex(vs) + [Entry(IntKey(|vs|), v)], Reindex(vs + [v]);
    forall i | 0 <= i < |l|
      ensures l[i] == r[i]
    {
      if i < |vs| {
        assert l[i] == Reindex(vs)[i];
      }
    }
  }

  lemma AppendAssoc<T>(a: seq<T>, b: seq<T>, c: seq<T>)
    ensures a + (b + c) == (a + b) + c
  {
  }

  /** r keeps some of the elements of s, in the order s has them. */
  ghost predicate Subsequence<T>(r: seq<T>, s: seq<T>)
    decreases |s|
  {
    if r == [] then true
    else if s == [] then false
    else if r[0] == s[0] then Subsequence(r[1..], s[1..])
    else Subsequence(r, s[1..])
  }

  /** Appending the same element to both sides keeps a subsequence a subsequence. */
  lemma {:induction false} SubsequenceSnoc<T>(r: seq<T>, s: seq<T>, x: T)
    requires Subsequence(r, s)
    ensures Subsequence(r, s + [x])
    ensures Subsequence(r + [x], s + [x])
    decreases |s|
  {
    if r == [] {
      if s != [] && s[0] != x {
        SubsequenceSnoc(r, s[1..], x);
        assert (s + [x])[1..] == s[1..] + [x];
      }
    } else if r[0] == s[0] {
      SubsequenceSnoc(r[1..], s[1..], x);
      assert (s + [x])[1..] == s[1..] + [x];
      assert (r + [x])[1..] == r[1..] + [x];
    } else {
      SubsequenceSnoc(r, s[1..], x);
      assert (s + [x])[1..] == s[1..] + [x];
    }
  }

  /** The entries of a whose key keep accepts, in their order (`array_diff_key`, `unset`). */
  function FilterKeys(a: PArray, keep: Key -> bool): (r: PArray)
    ensures forall e :: e in r <==> e in a && keep(e.key)
  {
    if a == [] then []
    else if keep(a[0].key) then [a[0]] + FilterKeys(a[1..], keep)
    else FilterKeys(a[1..], keep)
  }

  lemma {:induction false} FilterKeysUnique(a: PArray, keep: Key -> bool)
    requires UniqueKeys(a)
    ensures UniqueKeys(FilterKeys(a, keep))
  {
    if a != [] {
      FilterKeysUnique(a[1..], keep);
      var t := FilterKeys(a[1..], keep);
      if keep(a[0].key) {
        forall i, j | 0 <= i < j < |[a[0]] + t| ensures ([a[0]] + t)[i].key != ([a[0]] + t)[j].key {
          if i == 0 {
            assert t[j - 1] in a[1..];
          }
        }
      }
    }
  }

  /** Filtering by key leaves the lookups of the kept keys alone and removes the others. */
  lemma {:induction false} FilterKeysGet(a: PArray, keep: Key -> bool, k: Key)
    ensures keep(k) ==> Get(FilterKeys(a, keep), k) == Get(a, k)
    ensures !keep(k) ==> !HasKey(FilterKeys(a, keep), k)
  {
    var r := FilterKeys(a, keep);
    if a != [] {
      FilterKeysGet(a[1..], keep, k);
    }
  }

  lemma {:induction false} FilterKeysAll(a: PArray, keep: Key -> bool)
    requires forall i :: 0 <= i < |a| ==> keep(a[i].key)
    ensures FilterKeys(a, keep) == a
  {
    if a != [] {
      FilterKeysAll(a[1..], keep);
    }
  }

  /** `$a[$k] = $v`: overwrites the entry in place when k is present, appends otherwise. */
  function Assign(a: PArray, k: Key, v: Value): (r: PArray)
    ensures Get(r, k) == Some(v)
    ensures forall k' :: k' != k ==> Get(r, k') == Get(a, k')
    ensures |a| <= |r| <= |a| + 1
    ensures forall i :: 0 <= i < |a| ==> r[i].key == a[i].key
    ensures forall i :: 0 <= i < |a| && a[i].key != k ==> r[i] == a[i]
  {
    if a == [] then [Entry(k, v)]
    else if a[0].key == k then [Entry(k, v)] + a[1..]
    else [a[0]] + Assign(a[1..], k, v)
  }

  /** A fresh key is appended at the end; a present key is overwritten where it is. */
  lemma {:induction false} AssignAppendsOrKeepsLength(a: PArray, k: Key, v: Value)
    ensures !HasKey(a, k) ==> Assign(a, k, v) == a + [Entry(k, v)]
    ensures HasKey(a, k) ==> |Assign(a, k, v)| == |a|
    decreases |a|
  {
    if a != [] && a[0].key != k {
      HasKeyTail(a, k);
      AssignAppendsOrKeepsLength(a[1..], k, v);
      assert Assign(a, k, v) == [a[0]] + Assign(a[1..], k, v);
      assert a == [a[0]] + a[1..];
      AppendAssoc([a[0]], a[1..], [Entry(k, v)]);
    }
  }

  /** Past a first entry under another key, the key is in the array exactly when it is in the rest. */
  lemma HasKeyTail(a: PArray, k: Key)
    requires a != [] && a[0].key != k
    ensures HasKey(a, k) <==> HasKey(a[1..], k)
  {
    if HasKey(a, k) {
      var i :| 0 <= i < |a| && a[i].key == k;
      assert a[1..][i - 1].key == k;
    }
  }

  lemma {:induction false} AssignUnique(a: PArray, k: Key, v: Value)
    requires UniqueKeys(a)
    ensures UniqueKeys(Assign(a, k, v))
  {
    var r := Assign(a, k, v);
    AssignAppendsOrKeepsLength(a, k, v);
    if !HasKey(a, k) {
      forall i, j | 0 <= i < j < |r| ensures r[i].key != r[j].key {
        if j == |a| {
          assert r[i].key == a[i].key;
        }
      }
    } else {
      forall i, j | 0 <= i < j < |r| ensures r[i].key != r[j].key {
        assert r[i].key == a[i].key && r[j].key == a[j].key;
      }
    }
  }

  /** `unset($a[$k])`: drops the entry under k and keeps every other entry where it was. */
  function Unset(a: PArray, k: Key): (r: PArray)
    ensures forall e :: e in r <==> e in a && e.key != k
    ensures !HasKey(r, k)
    ensures forall k' :: k' != k ==> Get(r, k') == Get(a, k')
    ensures !HasKey(a, k) ==> r == a
  {
    if a == [] then []
    else
      assert !HasKey(a, k) ==> !HasKey(a[1..], k) by {
        if HasKey(a[1..], k) {
          var i :| 0 <= i < |a[1..]| && a[1..][i].key == k;
          assert a[i + 1].key == k;
        }
      }
      if a[0].key == k then Unset(a[1..], k) else [a[0]] + Unset(a[1..], k)
  }

  /** Unsetting keeps the order of the entries that remain. */
  lemma {:induction false} UnsetSubsequence(a: PArray, k: Key)
    ensures Subsequence(Unset(a, k), a)
  {
    if a != [] {
      UnsetSubsequence(a[1..], k);
      var r := Unset(a[1..], k);
      if a[0].key == k {
        SubsequenceDrop(r, a);
      }
    }
  }

  /** A subsequence of the tail is a subsequence of the whole. */
  lemma {:induction false} SubsequenceDrop<T>(r: seq<T>, s: seq<T>)
    requires s != [] && Subsequence(r, s[1..])
    ensures Subsequence(r, s)
    decreases |s|, 0
  {
    if r != [] && r[0] == s[0] {
      SubsequenceTail(r, s[1..]);
    }
  }

  /** Dropping the head of a subsequence leaves a subsequence. */
  lemma {:induction false} SubsequenceTail<T>(r: seq<T>, s: seq<T>)
    requires r != [] && Subsequence(r, s)
    ensures Subsequence(r[1..], s)
    decreases |s|, 1
  {
    if s != [] {
      if r[0] != s[0] {
        SubsequenceTail(r, s[1..]);
      }
      SubsequenceDrop(r[1..], s);
    }
  }

  /** Filtering by key keeps the order of the entries that remain. */
  lemma {:induction false} FilterKeysSubsequence(a: PArray, keep: Key -> bool)
    ensures Subsequence(FilterKeys(a, keep), a)
  {
    if a != [] {
      FilterKeysSubsequence(a[1..], keep);
      if !keep(a[0].key) {
        SubsequenceDrop(FilterKeys(a[1..], keep), a);
      }
    }
  }

  /** Looking up each key of an array with unique keys finds the value stored beside it. */
  lemma {:induction false} GetAt(a: PArray, i: nat)
    requires UniqueKeys(a) && i < |a|
    ensures Get(a, a[i].key) == Some(a[i].value)
  {
    if i > 0 {
      assert a[0].key != a[i].key;
      assert a[1..][i - 1] == a[i];
      GetAt(a[1..], i - 1);
    }
  }

  /** `basename($path)`: the text after the last '/'. */
  function Basename(path: string): (b: string)
    ensures '/' !in b
    ensures |b| <= |path|
    decreases |path|
  {
    if path == [] then []
    else if path[|path| - 1] == '/' then []
    else Basename(path[..|path| - 1]) + [path[|path| - 1]]
  }

  /** The base name is the tail of the path. */
  lemma {:induction false} BasenameIsSuffix(path: string)
    ensures path[|path| - |Basename(path)|..] == Basename(path)
    decreases |path|
  {
    if path != [] && path[|path| - 1] != '/' {
      var init := path[..|path| - 1];
      BasenameIsSuffix(init);
      assert path == init + [path[|path| - 1]];
    }
  }

  /** Putting a base name under any directory gives that base name back. */
  lemma {:induction false} BasenameOfJoin(dir: string, name: string)
    requires '/' !in name
    ensures Basename(dir + "/" + name) == name
    decreases |name|
  {
    if name == [] {
      assert (dir + "/" + name)[|dir + "/" + name| - 1] == '/';
    } else {
      var p := dir + "/" + name;
      var last := name[|name| - 1];
      assert p[..|p| - 1] == dir + "/" + name[..|name| - 1];
      assert name[..|name| - 1] + [last] == name;
      BasenameOfJoin(dir, name[..|name| - 1]);
    }
  }

  function Digit(d: nat): (c: char)
    requires d < 10
    ensures '0' <= c <= '9'
  {
    "0123456789"[d]
  }

  /** The decimal text PHP prints for a natural number. */
  function NatToString(n: nat): (s: string)
    ensures |s| >= 1 && forall i :: 0 <= i < |s| ==> '0' <= s[i] <= '9'
    ensures n >= 10 ==> s[0] != '0'
  {
    if n < 10 then [Digit(n)] else NatToString(n / 10) + [Digit(n % 10)]
  }

  lemma DigitValue(d: nat)
    requires d < 10
    ensures (Digit(d) - '0') as nat == d
  {
  }

  /** The decimal text of n reads back as n. */
  lemma {:induction false} NatToStringDigits(n: nat)
    ensures IsDigits(NatToString(n)) && DigitsValue(NatToString(n)) == n
    decreases n
  {
    var s := NatToString(n);
    DigitValue(n % 10);
    if n < 10 {
      assert s[..|s| - 1] == [];
    } else {
      NatToStringDigits(n / 10);
      assert s[..|s| - 1] == NatToString(n / 10);
    }
  }

  /**
   * The decimal text of n reads back as n, and PHP takes that text as the
   * integer key n when n fits a 64-bit integer; past that it stays a string key.
   */
  lemma NatToStringRoundTrip(n: nat)
    ensures IsDigits(NatToString(n)) && DigitsValue(NatToString(n)) == n
    ensures CanonicalKey(NatToString(n)) == if n <= PHP_INT_MAX then IntKey(n) else StrKey(NatToString(n))
  {
    NatToStringDigits(n);
    var s := NatToString(n);
    if n < 10 {
      if n == 0 {
        assert s == "0";
      } else {
        assert s[0] != '0' by { DigitValue(n); }
      }
    }
  }

  function IntToString(i: int): string {
    if i < 0 then "-" + NatToString(-i) else NatToString(i)
  }

  predicate IsDigits(s: string) {
    |s| > 0 && forall i :: 0 <= i < |s| ==> '0' <= s[i] <= '9'
  }

  function DigitsValue(s: string): nat
    requires IsDigits(s) || s == []
    decreases |s|
  {
    if s == [] then 0
    else DigitsValue(s[..|s| - 1]) * 10 + (s[|s| - 1] - '0') as nat
  }

  /** The largest integer of 64-bit PHP. */
  const PHP_INT_MAX: int := 0x7FFF_FFFF_FFFF_FFFF

  /**
   * A string PHP turns into an integer key: a decimal integer without
   * leading zeros or "-0" that fits a 64-bit integer.
   */
  predicate IsCanonicalDecimal(s: string) {
    s == "0"
    || (IsDigits(s) && s[0] != '0' && DigitsValue(s) <= PHP_INT_MAX)
    || (|s| >= 2 && s[0] == '-' && IsDigits(s[1..]) && s[1] != '0' && DigitsValue(s[1..]) <= PHP_INT_MAX + 1)
  }

  /** The key PHP stores for a string used as an array key. */
  function CanonicalKey(s: string): Key {
    if !IsCanonicalDecimal(s) then StrKey(s)
    else if s[0] == '-' then IntKey(-(DigitsValue(s[1..]) as int))
    else IntKey(DigitsValue(s))
  }

  /** The key `array_flip` makes of a value; it skips every value that is not an integer or a string. */
  function FlipKey(v: Value): Option<Key> {
    match v
    case Int(i) => Some(IntKey(i))
    case Str(s) => Some(CanonicalKey(s))
    case _ => None
  }

  /** The key `$a[$v]` uses; None for an array or object, which PHP refuses as an offset. */
  function OffsetKey(v: Value): Option<Key> {
    match v
    case Null => Some(StrKey(""))
    case Bool(b) => Some(IntKey(if b then 1 else 0))
    case Int(i) => Some(IntKey(i))
    case Str(s) => Some(CanonicalKey(s))
    case _ => None
  }

  /** The text the `.` operator makes of a value; None for an object without `__toString`, which PHP cannot convert. */
  function ConcatString(v: Value): (r: Option<string>)
    ensures r.None? <==> v.Obj? && v.toString.None?
    ensures v.Str? ==> r == Some(v.s)
    ensures v.Obj? ==> r == v.toString
  {
    match v
    case Null => Some("")
    case Bool(b) => Some(if b then "1" else "")
    case Int(i) => Some(IntToString(i))
    case Str(s) => Some(s)
    case Arr(_) => Some("Array")
    case Obj(_, _, t) => t
  }

  /** A value passed to a non-nullable `String` parameter; None where PHP raises a TypeError. */
  function StringParam(v: Value): (r: Option<string>)
    ensures r.None? <==> v.Null? || v.Arr? || (v.Obj? && v.toString.None?)
    ensures r.Some? ==> r == ConcatString(v)
  {
    match v
    case Bool(b) => Some(if b then "1" else "")
    case Int(i) => Some(IntToString(i))
    case Str(s) => Some(s)
    case Obj(_, _, t) => t
    case _ => None
  }
}
