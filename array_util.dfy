/**
 * The two helpers of `Partridge\Utils\ArrayUtil`.
 *
 * A by-reference array parameter is modelled as an array passed in and
 * handed back: PHP arrays are values, so the caller's variable afterwards
 * holds exactly the returned array.
 */
module ArrayUtil {
  import opened Php

  /** The keys `array_flip` makes of the values of an array; values that are neither integers nor strings are skipped. */
  function FlippedKeys(values: PArray): (ks: set<Key>)
    ensures forall k :: k in ks <==> exists i :: 0 <= i < |values| && FlipKey(values[i].value) == Some(k)
  {
    set i | 0 <= i < |values| && FlipKey(values[i].value).Some? :: FlipKey(values[i].value).value
  }

  /** `arrayDiffKeyByValues`: `array_diff_key($array1, array_flip($array2))`, with first and second for `$array1` and `$array2`. */
  function DiffKeyByValues(first: PArray, second: PArray): (r: PArray)
    ensures forall e :: e in r <==> e in first && e.key !in FlippedKeys(second)
    ensures Subsequence(r, first)
    ensures UniqueKeys(first) ==> UniqueKeys(r)
  {
    var keep := (k: Key) => k !in FlippedKeys(second);
    FilterKeepsUnique(first, keep);
    FilterKeysSubsequence(first, keep);
    FilterKeys(first, keep)
  }

  lemma FilterKeepsUnique(a: PArray, keep: Key -> bool)
    ensures UniqueKeys(a) ==> UniqueKeys(FilterKeys(a, keep))
  {
    if UniqueKeys(a) {
      FilterKeysUnique(a, keep);
    }
  }

  /**
   * The key second blacklists is exactly a key spelled by one of its
   * integer or string values; every other entry of first survives with
   * its value.
   */
  lemma DiffKeyByValuesLookup(first: PArray, second: PArray, k: Key)
    ensures (exists i :: 0 <= i < |second| && FlipKey(second[i].value) == Some(k))
            ==> !HasKey(DiffKeyByValues(first, second), k)
    ensures (forall i :: 0 <= i < |second| ==> FlipKey(second[i].value) != Some(k))
            ==> Get(DiffKeyByValues(first, second), k) == Get(first, k)
  {
    FilterKeysGet(first, (k': Key) => k' !in FlippedKeys(second), k);
  }

  /**
   * `arrayPluck(&$array, $key, $default)`: when `$array[$key]` is set,
   * hands its value back and removes that one entry; otherwise hands the
   * default back and leaves the array alone.
   */
  method Pluck(a: PArray, key: Key, default: Value) returns (rest: PArray, value: Value)
    ensures !IsSet(a, key) ==> value == default && rest == a
    ensures IsSet(a, key) ==> Get(a, key) == Some(value) && value != Null && rest == Unset(a, key)
    ensures IsSet(a, key) ==> forall e :: e in rest <==> e in a && e.key != key
    ensures IsSet(a, key) ==> !HasKey(rest, key) && Subsequence(rest, a)
    ensures forall k :: k != key ==> Get(rest, k) == Get(a, k)
  {
    if !IsSet(a, key) {
      return a, default;
    }
    value := Get(a, key).value;
    rest := Unset(a, key);
    UnsetSubsequence(a, key);
  }
}
