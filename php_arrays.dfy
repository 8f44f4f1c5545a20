/** PHP's ordered associative arrays as sequences of key/value pairs.
    Assigning `$a[$k] = $v` overwrites the value in place when `$k` is already
    a key and appends the pair at the end otherwise; `unset($a[$k])` removes the
    pair and keeps the order of the others. */
module PhpArrays {
  import opened Wrappers

  type OMap<K, V> = seq<(K, V)>

  function KeysOf<K, V>(m: OMap<K, V>): (ks: seq<K>)
    ensures |ks| == |m|
    ensures forall i :: 0 <= i < |m| ==> ks[i] == m[i].0
  {
    if m == [] then [] else [m[0].0] + KeysOf(m[1..])
  }

  function ValuesOf<K, V>(m: OMap<K, V>): (vs: seq<V>)
    ensures |vs| == |m|
    ensures forall i :: 0 <= i < |m| ==> vs[i] == m[i].1
  {
    if m == [] then [] else [m[0].1] + ValuesOf(m[1..])
  }

  /** Every key occurs once, as in a PHP array. */
  ghost predicate UniqueKeys<K, V>(m: OMap<K, V>)
  {
    forall i, j :: 0 <= i < j < |m| ==> m[i].0 != m[j].0
  }

  predicate HasKey<K(==), V>(m: OMap<K, V>, k: K)
  {
    exists i :: 0 <= i < |m| && m[i].0 == k
  }

  /** The position of the first pair with key `k`, or `|m|`. */
  function IndexOfKey<K(==), V>(m: OMap<K, V>, k: K): (i: nat)
    ensures i <= |m|
    ensures i < |m| ==> m[i].0 == k
    ensures forall j :: 0 <= j < i ==> m[j].0 != k
    ensures i == |m| <==> !HasKey(m, k)
  {
    if m == [] then 0
    else if m[0].0 == k then 0
    else 1 + IndexOfKey(m[1..], k)
  }

  /** The first pair with key `k` is the one `IndexOfKey` finds. */
  lemma IndexOfKeyAt<K, V>(m: OMap<K, V>, k: K, i: nat)
    requires i < |m| && m[i].0 == k
    requires forall j :: 0 <= j < i ==> m[j].0 != k
    ensures IndexOfKey(m, k) == i
  {
    assert HasKey(m, k);
  }

  /** `$m[$k] ?? null`. */
  function Get<K(==), V>(m: OMap<K, V>, k: K): (r: Option<V>)
    ensures r.Some? <==> HasKey(m, k)
    ensures r.Some? ==> r.value == m[IndexOfKey(m, k)].1
  {
    var i := IndexOfKey(m, k);
    if i < |m| then Some(m[i].1) else None
  }

  /** `$m[$k] = $v`. */
  function Put<K(==), V>(m: OMap<K, V>, k: K, v: V): (r: OMap<K, V>)
    ensures HasKey(m, k) ==> r == m[IndexOfKey(m, k) := (k, v)]
    ensures !HasKey(m, k) ==> r == m + [(k, v)]
  {
    var i := IndexOfKey(m, k);
    if i < |m| then m[i := (k, v)] else m + [(k, v)]
  }

  /** After `$m[$k] = $v` the key reads back as `$v`. */
  lemma PutGetSame<K, V>(m: OMap<K, V>, k: K, v: V)
    ensures Get(Put(m, k, v), k) == Some(v)
  {
    var r := Put(m, k, v);
    if HasKey(m, k) {
      var i := IndexOfKey(m, k);
      IndexOfKeyAt(r, k, i);
    } else {
      assert forall j :: 0 <= j < |m| ==> r[j] == m[j];
      IndexOfKeyAt(r, k, |m|);
    }
  }

  /** `$m[$k] = $v` leaves every other key as it was. */
  lemma PutGetOther<K, V>(m: OMap<K, V>, k: K, v: V, k': K)
    requires k' != k
    ensures Get(Put(m, k, v), k') == Get(m, k')
  {
    var r := Put(m, k, v);
    var j := IndexOfKey(m, k');
    assert forall t :: 0 <= t < |m| ==> r[t].0 == m[t].0;
    assert forall t :: 0 <= t < |m| && m[t].0 != k ==> r[t] == m[t];
    if j < |m| {
      IndexOfKeyAt(r, k', j);
    } else {
      assert !HasKey(r, k') by {
        forall t | 0 <= t < |r| ensures r[t].0 != k' {
        }
      }
    }
  }

  /** `$m[$k] = $v` keeps keys unique and adds `k` at the end when it is new. */
  lemma PutKeys<K, V>(m: OMap<K, V>, k: K, v: V)
    requires UniqueKeys(m)
    ensures UniqueKeys(Put(m, k, v))
    ensures KeysOf(Put(m, k, v)) == if HasKey(m, k) then KeysOf(m) else KeysOf(m) + [k]
  {
  }

  /** `unset($m[$k])`: drop the pairs with key `k`, keep the others in order. */
  function Remove<K(==), V>(m: OMap<K, V>, k: K): (r: OMap<K, V>)
    ensures !HasKey(r, k)
    ensures |r| <= |m|
    ensures forall i :: 0 <= i < |r| ==> r[i] in m
    ensures forall i :: 0 <= i < |m| && m[i].0 != k ==> m[i] in r
  {
    if m == [] then []
    else if m[0].0 == k then Remove(m[1..], k)
    else [m[0]] + Remove(m[1..], k)
  }

  /** `unset` works pair by pair: on two arrays one after the other it gives
      the two remainders one after the other, so the kept pairs keep their
      order. */
  lemma {:induction false} RemoveConcat<K, V>(a: OMap<K, V>, b: OMap<K, V>, k: K)
    ensures Remove(a + b, k) == Remove(a, k) + Remove(b, k)
  {
    if a == [] {
      assert a + b == b;
    } else {
      var ab := a + b;
      assert ab[0] == a[0] && ab[1..] == a[1..] + b;
      RemoveConcat(a[1..], b, k);
      if a[0].0 == k {
        assert Remove(ab, k) == Remove(a[1..] + b, k);
      } else {
        assert Remove(ab, k) == [a[0]] + Remove(a[1..] + b, k);
        assert [a[0]] + (Remove(a[1..], k) + Remove(b, k)) == ([a[0]] + Remove(a[1..], k)) + Remove(b, k);
      }
    }
  }

  /** `unset` of a missing key changes nothing. */
  lemma {:induction false} RemoveAbsent<K, V>(m: OMap<K, V>, k: K)
    requires !HasKey(m, k)
    ensures Remove(m, k) == m
  {
    if m != [] {
      assert m[0].0 != k;
      assert !HasKey(m[1..], k) by {
        forall t | 0 <= t < |m[1..]| ensures m[1..][t].0 != k {
          assert m[1..][t] == m[t + 1];
        }
      }
      RemoveAbsent(m[1..], k);
      assert m == [m[0]] + m[1..];
    }
  }

  /** `array_combine(keys, values)`: pairs the i-th key with the i-th value;
      a repeated key keeps its first position and takes the later value. */
  function Combine<K(==), V>(keys: seq<K>, values: seq<V>): (r: OMap<K, V>)
    requires |keys| == |values|
    decreases |keys|
  {
    if keys == [] then []
    else Put(Combine(keys[..|keys| - 1], values[..|values| - 1]), keys[|keys| - 1], values[|values| - 1])
  }

  function Zip<K, V>(keys: seq<K>, values: seq<V>): (r: OMap<K, V>)
    requires |keys| == |values|
    ensures |r| == |keys|
    ensures forall i :: 0 <= i < |r| ==> r[i] == (keys[i], values[i])
  {
    seq(|keys|, i requires 0 <= i < |keys| => (keys[i], values[i]))
  }

  /** With distinct keys `array_combine` is exactly the pairing of the two lists. */
  lemma {:induction false} CombineDistinct<K, V>(keys: seq<K>, values: seq<V>)
    requires |keys| == |values|
    requires forall i, j :: 0 <= i < j < |keys| ==> keys[i] != keys[j]
    ensures Combine(keys, values) == Zip(keys, values)
  {
    if keys != [] {
      var n := |keys| - 1;
      CombineDistinct(keys[..n], values[..n]);
      var z := Zip(keys[..n], values[..n]);
      assert !HasKey(z, keys[n]) by {
        forall t | 0 <= t < |z| ensures z[t].0 != keys[n] {
          assert z[t].0 == keys[t];
        }
      }
      assert z + [(keys[n], values[n])] == Zip(keys, values);
    }
  }
}
