/** Small shared vocabulary: optional values, fallible results, and the two ways
    the repository folds a batch of rows into a hash map (insert-or-replace and
    replace-only). */
module Common {

  datatype Option<+T> = None | Some(value: T) {
    /** Rust's `unwrap_or` / `unwrap_or_default` with the default made explicit */
    function GetOr(default: T): T {
      match this
      case Some(v) => v
      case None => default
    }
  }

  datatype Result<+T, +E> = Ok(value: T) | Err(error: E)

  /** The keys mentioned by a sequence of key/value pairs */
  function KeysOf<K, V>(kvs: seq<(K, V)>): set<K> {
    set i | 0 <= i < |kvs| :: kvs[i].0
  }

  /** Position `i` is the last occurrence of its key in `kvs` */
  ghost predicate LastFor<K, V>(kvs: seq<(K, V)>, i: int) {
    0 <= i < |kvs| && forall j :: i < j < |kvs| ==> kvs[j].0 != kvs[i].0
  }

  /** Folding `HashMap::insert` (or `entry().and_modify().or_insert()`) over
      the pairs in order: every key is added and a later pair replaces an
      earlier one. */
  function Upsert<K, V>(m: map<K, V>, kvs: seq<(K, V)>): (r: map<K, V>)
    ensures r.Keys == m.Keys + KeysOf(kvs)
    decreases |kvs|
  {
    if |kvs| == 0 then m
    else
      var r := Upsert(m[kvs[0].0 := kvs[0].1], kvs[1..]);
      assert KeysOf(kvs) == {kvs[0].0} + KeysOf(kvs[1..]) by {
        forall k | k in KeysOf(kvs) ensures k in {kvs[0].0} + KeysOf(kvs[1..]) {
          var i :| 0 <= i < |kvs| && kvs[i].0 == k;
          if i > 0 { assert kvs[1..][i - 1].0 == k; }
        }
      }
      r
  }

  lemma {:induction false} UpsertLastWins<K, V>(m: map<K, V>, kvs: seq<(K, V)>, i: int)
    requires LastFor(kvs, i)
    ensures kvs[i].0 in Upsert(m, kvs) && Upsert(m, kvs)[kvs[i].0] == kvs[i].1
    decreases |kvs|
  {
    if i == 0 {
      UpsertUntouched(m[kvs[0].0 := kvs[0].1], kvs[1..], kvs[0].0);
    } else {
      assert LastFor(kvs[1..], i - 1);
      UpsertLastWins(m[kvs[0].0 := kvs[0].1], kvs[1..], i - 1);
    }
  }

  lemma {:induction false} UpsertUntouched<K, V>(m: map<K, V>, kvs: seq<(K, V)>, k: K)
    requires k in m
    requires forall j :: 0 <= j < |kvs| ==> kvs[j].0 != k
    ensures k in Upsert(m, kvs) && Upsert(m, kvs)[k] == m[k]
    decreases |kvs|
  {
    if |kvs| > 0 {
      UpsertUntouched(m[kvs[0].0 := kvs[0].1], kvs[1..], k);
    }
  }

  /** Every entry of a map built from scratch by `Upsert` comes from one of
      the pairs. */
  lemma {:induction false} UpsertOnlyFromPairs<K, V>(kvs: seq<(K, V)>)
    ensures forall k :: k in Upsert(map[], kvs) ==>
      exists i :: 0 <= i < |kvs| && kvs[i].0 == k && Upsert(map[], kvs)[k] == kvs[i].1
  {
    forall k | k in Upsert(map[], kvs)
      ensures exists i :: 0 <= i < |kvs| && kvs[i].0 == k && Upsert(map[], kvs)[k] == kvs[i].1
    {
      var i := LastIndex(kvs, k);
      UpsertLastWins(map[], kvs, i);
    }
  }

  /** The last position holding key `k` */
  function LastIndex<K(==), V>(kvs: seq<(K, V)>, k: K): (i: int)
    requires k in KeysOf(kvs)
    ensures LastFor(kvs, i) && kvs[i].0 == k
    decreases |kvs|
  {
    if kvs[|kvs| - 1].0 == k then |kvs| - 1
    else
      assert k in KeysOf(kvs[..|kvs| - 1]) by {
        var j :| 0 <= j < |kvs| && kvs[j].0 == k;
        assert kvs[..|kvs| - 1][j].0 == k;
      }
      LastIndex(kvs[..|kvs| - 1], k)
  }

  /** Folding `entry(k).and_modify(..)` without `or_insert` over the pairs:
      only keys already present are replaced, nothing is ever added. */
  function Refresh<K, V>(m: map<K, V>, kvs: seq<(K, V)>): (r: map<K, V>)
    ensures r.Keys == m.Keys
    decreases |kvs|
  {
    if |kvs| == 0 then m
    else Refresh(if kvs[0].0 in m then m[kvs[0].0 := kvs[0].1] else m, kvs[1..])
  }

  lemma {:induction false} RefreshLastWins<K, V>(m: map<K, V>, kvs: seq<(K, V)>, i: int)
    requires LastFor(kvs, i) && kvs[i].0 in m
    ensures Refresh(m, kvs)[kvs[i].0] == kvs[i].1
    decreases |kvs|
  {
    if i == 0 {
      RefreshUntouched(m[kvs[0].0 := kvs[0].1], kvs[1..], kvs[0].0);
    } else {
      assert LastFor(kvs[1..], i - 1);
      RefreshLastWins(if kvs[0].0 in m then m[kvs[0].0 := kvs[0].1] else m, kvs[1..], i - 1);
    }
  }

  lemma {:induction false} RefreshUntouched<K, V>(m: map<K, V>, kvs: seq<(K, V)>, k: K)
    requires k in m
    requires forall j :: 0 <= j < |kvs| ==> kvs[j].0 != k
    ensures Refresh(m, kvs)[k] == m[k]
    decreases |kvs|
  {
    if |kvs| > 0 {
      RefreshUntouched(if kvs[0].0 in m then m[kvs[0].0 := kvs[0].1] else m, kvs[1..], k);
    }
  }

  predicate Distinct<T(==)>(s: seq<T>) {
    forall i, j :: 0 <= i < j < |s| ==> s[i] != s[j]
  }

  /** `order` lists every element of `keys` exactly once: one possible
      iteration order of a hash map whose key set is `keys`. */
  predicate Enumerates<T(==)>(order: seq<T>, keys: set<T>) {
    Distinct(order) && (forall x :: x in order ==> x in keys) && (forall x :: x in keys ==> x in order)
  }

  function Concat<T>(ss: seq<seq<T>>): (r: seq<T>)
    decreases |ss|
  {
    if |ss| == 0 then [] else ss[0] + Concat(ss[1..])
  }

  predicate IsPrefix<T(==)>(p: seq<T>, s: seq<T>) {
    |p| <= |s| && s[..|p|] == p
  }

  /** Rust's `str::contains` for a string pattern */
  predicate Contains(s: string, sub: string)
    decreases |s|
  {
    IsPrefix(sub, s) || (|s| > 0 && Contains(s[1..], sub))
  }

  /** A substring of `s` is a substring of anything ending in `s` */
  lemma {:induction false} ContainsAfter(pre: string, s: string, sub: string)
    requires Contains(s, sub)
    ensures Contains(pre + s, sub)
    decreases |pre|
  {
    if |pre| > 0 {
      ContainsAfter(pre[1..], s, sub);
      assert (pre + s)[1..] == pre[1..] + s;
    } else {
      assert pre + s == s;
    }
  }

  /** `sub` occurs in `s` starting at index `i` */
  predicate OccursAt(s: string, sub: string, i: int) {
    0 <= i && i + |sub| <= |s| && s[i..i + |sub|] == sub
  }

  /** `Contains` agrees with the positional definition of a substring */
  lemma {:induction false} ContainsAt(s: string, sub: string)
    ensures Contains(s, sub) <==> exists i :: OccursAt(s, sub, i)
    decreases |s|
  {
    if IsPrefix(sub, s) {
      assert OccursAt(s, sub, 0);
    } else if |s| == 0 {
    } else {
      ContainsAt(s[1..], sub);
      if exists i :: OccursAt(s, sub, i) {
        var i :| OccursAt(s, sub, i);
        assert i != 0;
        assert OccursAt(s[1..], sub, i - 1);
      }
      if Contains(s[1..], sub) {
        var i :| OccursAt(s[1..], sub, i);
        assert OccursAt(s, sub, i + 1);
      }
    }
  }
}
