/**
 * PHP's ordered arrays with string keys, as sequences of (key, value)
 * pairs: the position in the sequence is the array's insertion order.
 */
module Assoc {
  import opened Optional

  /** `array_keys`: the keys in insertion order. */
  function Keys<V>(m: seq<(string, V)>): (ks: seq<string>)
    ensures |ks| == |m|
    ensures forall i :: 0 <= i < |m| ==> ks[i] == m[i].0
  {
    if |m| == 0 then [] else [m[0].0] + Keys(m[1..])
  }

  /** `array_values`: the values in key order. */
  function Values<V>(m: seq<(string, V)>): (vs: seq<V>)
    ensures |vs| == |m|
    ensures forall i :: 0 <= i < |m| ==> vs[i] == m[i].1
  {
    if |m| == 0 then [] else [m[0].1] + Values(m[1..])
  }

  /** What every PHP array satisfies: no key occurs twice. */
  predicate DistinctKeys<V>(m: seq<(string, V)>)
  {
    forall i, j :: 0 <= i < j < |m| ==> m[i].0 != m[j].0
  }

  /** The position of the first entry whose key is `k`. */
  function First<V>(m: seq<(string, V)>, k: string): (i: nat)
    requires k in Keys(m)
    ensures i < |m| && m[i].0 == k
    ensures forall j :: 0 <= j < i ==> m[j].0 != k
  {
    if m[0].0 == k then 0 else 1 + First(m[1..], k)
  }

  /** The value stored under `k`, if any. */
  function Get<V>(m: seq<(string, V)>, k: string): Option<V>
  {
    if |m| == 0 then None else if m[0].0 == k then Some(m[0].1) else Get(m[1..], k)
  }

  /**
   * `$m[$k] = $v`: a key already present keeps its position and only its
   * value changes; a new key is appended at the end (see `PutShape`).
   */
  function Put<V>(m: seq<(string, V)>, k: string, v: V): seq<(string, V)>
  {
    if |m| == 0 then [(k, v)]
    else if m[0].0 == k then [(k, v)] + m[1..]
    else [m[0]] + Put(m[1..], k, v)
  }

  /** A key not yet present is appended at the end. */
  lemma {:induction false} PutAppends<V>(m: seq<(string, V)>, k: string, v: V)
    requires k !in Keys(m)
    ensures Put(m, k, v) == m + [(k, v)]
  {
    if |m| > 0 {
      var rest := m[1..];
      assert Keys(m) == [m[0].0] + Keys(rest);
      PutAppends(rest, k, v);
      assert m == [m[0]] + rest;
    }
  }

  /** A key already present is overwritten in place, at its first position. */
  lemma {:induction false} PutOverwrites<V>(m: seq<(string, V)>, k: string, v: V)
    requires k in Keys(m)
    ensures Put(m, k, v) == m[..First(m, k)] + [(k, v)] + m[First(m, k) + 1..]
  {
    if m[0].0 == k {
      OverwriteHere(m, k, v);
    } else {
      assert Keys(m) == [m[0].0] + Keys(m[1..]);
      PutOverwrites(m[1..], k, v);
      OverwriteLater(m, k, v);
    }
  }

  lemma {:induction false} OverwriteHere<V>(m: seq<(string, V)>, k: string, v: V)
    requires |m| > 0 && m[0].0 == k
    ensures k in Keys(m) && First(m, k) == 0
    ensures Put(m, k, v) == m[..0] + [(k, v)] + m[1..]
  {
    assert Keys(m)[0] == k;
  }

  lemma {:induction false} OverwriteLater<V>(m: seq<(string, V)>, k: string, v: V)
    requires |m| > 0 && m[0].0 != k && k in Keys(m[1..])
    requires Put(m[1..], k, v) == m[1..][..First(m[1..], k)] + [(k, v)] + m[1..][First(m[1..], k) + 1..]
    ensures k in Keys(m)
    ensures Put(m, k, v) == m[..First(m, k)] + [(k, v)] + m[First(m, k) + 1..]
  {
    assert Keys(m) == [m[0].0] + Keys(m[1..]);
    var j := First(m[1..], k);
    assert First(m, k) == j + 1;
    SpliceStep(m, (k, v), j);
  }

  /** Where `Put` writes: over the first entry with the key, or onto the end. */
  lemma {:induction false} PutShape<V>(m: seq<(string, V)>, k: string, v: V)
    ensures k !in Keys(m) ==> Put(m, k, v) == m + [(k, v)]
    ensures k in Keys(m) ==>
      Put(m, k, v) == m[..First(m, k)] + [(k, v)] + m[First(m, k) + 1..]
  {
    if k in Keys(m) {
      PutOverwrites(m, k, v);
    } else {
      PutAppends(m, k, v);
    }
  }

  /** Replacing entry `j` of the tail is replacing entry `j + 1` of the whole. */
  lemma {:induction false} SpliceStep<T>(m: seq<T>, x: T, j: nat)
    requires j + 1 < |m|
    ensures [m[0]] + (m[1..][..j] + [x] + m[1..][j + 1..]) == m[..j + 1] + [x] + m[j + 2..]
  {
    assert m[..j + 1] == [m[0]] + m[1..][..j];
    assert m[j + 2..] == m[1..][j + 1..];
  }

  /** The keys after a write: unchanged when the key was present, one more at the end otherwise. */
  lemma {:induction false} PutKeys<V>(m: seq<(string, V)>, k: string, v: V)
    ensures k in Keys(m) ==> Keys(Put(m, k, v)) == Keys(m)
    ensures k !in Keys(m) ==> Keys(Put(m, k, v)) == Keys(m) + [k]
  {
    if |m| > 0 {
      var rest := m[1..];
      assert Keys(m) == [m[0].0] + Keys(rest);
      if m[0].0 == k {
        assert Put(m, k, v)[1..] == rest;
      } else {
        PutKeys(rest, k, v);
        assert Put(m, k, v)[1..] == Put(rest, k, v);
      }
    }
  }

  /** Writing a key never makes two entries share a key. */
  lemma {:induction false} PutDistinct<V>(m: seq<(string, V)>, k: string, v: V)
    ensures DistinctKeys(m) ==> DistinctKeys(Put(m, k, v))
  {
    PutKeys(m, k, v);
    var r := Put(m, k, v);
    if DistinctKeys(m) {
      forall i, j | 0 <= i < j < |r|
        ensures r[i].0 != r[j].0
      {
        assert r[i].0 == Keys(r)[i] && r[j].0 == Keys(r)[j];
        if j < |m| {
          assert Keys(m)[i] == m[i].0 && Keys(m)[j] == m[j].0;
        } else {
          assert Keys(m)[i] in Keys(m);
        }
      }
    }
  }

  /** After `$m[$k] = $v`, reading `$k` gives `$v` and every other key reads as before. */
  lemma {:induction false} PutGet<V>(m: seq<(string, V)>, k: string, v: V)
    ensures Get(Put(m, k, v), k) == Some(v)
    ensures forall k' :: k' != k ==> Get(Put(m, k, v), k') == Get(m, k')
  {
    if |m| > 0 && m[0].0 != k {
      PutGet(m[1..], k, v);
      assert Put(m, k, v)[1..] == Put(m[1..], k, v);
    } else if |m| > 0 {
      assert Put(m, k, v)[1..] == m[1..];
    }
  }
}
