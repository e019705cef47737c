/** Datatypes and sequence facts shared by every module. */
module Common {

  datatype Option<+T> = None | Some(value: T)

  datatype Result<+T> = Ok(value: T) | Err

  ghost predicate Distinct<T>(s: seq<T>) {
    forall i, j :: 0 <= i < j < |s| ==> s[i] != s[j]
  }

  function Image<A, B>(s: seq<A>, f: A -> B): (r: seq<B>)
    ensures |r| == |s| && forall i :: 0 <= i < |r| ==> r[i] == f(s[i])
  {
    seq(|s|, i requires 0 <= i < |s| => f(s[i]))
  }

  /** The newest `n` elements of a log: all of it while it is shorter than `n`. */
  function Newest<T>(log: seq<T>, n: nat): (r: seq<T>) {
    if |log| <= n then log else log[|log| - n..]
  }

  /** It is what is left of the log once all but its last n elements are cut
      off. */
  lemma NewestIsTail<T>(log: seq<T>, n: nat)
    ensures var r := Newest(log, n); |r| == (if |log| < n then |log| else n) && log == log[..|log| - |r|] + r
  {}

  /** m' agrees with m wherever m is defined. */
  ghost predicate Extends<K(!new), V(!new)>(m: map<K, V>, m': map<K, V>) {
    forall k :: k in m ==> k in m' && m'[k] == m[k]
  }

  function Elems<T>(s: seq<T>): (r: set<T>)
  {
    set x | x in s
  }

  lemma {:induction false} ElemsSize<T>(s: seq<T>)
    requires Distinct(s)
    ensures |Elems(s)| == |s|
  {
    if s != [] {
      var n := |s| - 1;
      ElemsSize(s[..n]);
      assert s == s[..n] + [s[n]];
      assert Elems(s) == Elems(s[..n]) + {s[n]};
      assert s[n] !in Elems(s[..n]);
    }
  }

  lemma ElemsNext<T>(s: seq<T>, k: nat)
    requires Distinct(s) && k < |s|
    ensures Elems(s[..k + 1]) == Elems(s[..k]) + {s[k]} && s[k] in Elems(s) && s[k] !in Elems(s[..k])
  {
    assert s[..k + 1] == s[..k] + [s[k]];
  }

  lemma SubsetSize<T>(a: set<T>, b: set<T>)
    requires a <= b
    ensures |a| <= |b|
    ensures |a| == |b| ==> a == b
    ensures |b - a| == |b| - |a|
  {
    assert b == a + (b - a);
    assert a !! (b - a);
    assert |b| == |a| + |b - a|;
    if |a| == |b| {
      assert b - a == {};
    }
  }

  lemma PutLeft<K, V>(b: map<K, V>, a: map<K, V>, k: K, v: V)
    requires k !in a
    ensures (b + a)[k := v] == b[k := v] + a
  {}

  lemma DropPut<K, V>(m: map<K, V>, k: K, v: V, covered: set<K>)
    ensures m[k := v] - covered == if k in covered then m - covered else (m - covered)[k := v]
  {}

  lemma OverrideBare<K, V>(s: map<K, V>, u: map<K, V>)
    ensures (s - u.Keys) + u == s + u
  {}

  /** Overriding with t changes nothing that u does not cover exactly when s
      agrees with t there. */
  lemma OverrideTwice<K, V>(s: map<K, V>, t: map<K, V>, u: map<K, V>)
    ensures (s + t) + u == s + u <==> forall k :: k in t && k !in u ==> k in s && s[k] == t[k]
  {
    if (s + t) + u == s + u {
      forall k | k in t && k !in u ensures k in s && s[k] == t[k] {
        assert k in (s + t) + u && ((s + t) + u)[k] == t[k];
      }
    }
  }

  /** Go's int(f): truncation toward zero. */
  function Truncate(f: real): (n: int)
    ensures f >= 0.0 ==> n as real <= f < n as real + 1.0
    ensures f <= 0.0 ==> n as real - 1.0 < f <= n as real
  {
    if f < 0.0 then -((-f).Floor) else f.Floor
  }
}
