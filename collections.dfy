/**
 * Sequence facts shared by the save coordinator and the puzzles: filtering that keeps order,
 * counting, position-by-position matching, and the index a dictionary holds after assigning
 * `d[key(x)] = x` for every element in order.
 */
module Collections {

  /** The ascending indices of the elements of `s` that satisfy `keep`. */
  function Kept<T>(s: seq<T>, keep: T -> bool): (ix: seq<nat>)
    ensures forall k :: 0 <= k < |ix| ==> ix[k] < |s| && keep(s[ix[k]])
    ensures forall k, l :: 0 <= k < l < |ix| ==> ix[k] < ix[l]
    ensures forall i :: 0 <= i < |s| && keep(s[i]) ==> i in ix
  {
    if s == [] then []
    else Kept(s[..|s| - 1], keep) + (if keep(s[|s| - 1]) then [|s| - 1] else [])
  }

  /** How many elements of `s` satisfy `p`. */
  function Count<T>(s: seq<T>, p: T -> bool): (n: nat)
    ensures n <= |s|
  {
    if s == [] then 0
    else Count(s[..|s| - 1], p) + (if p(s[|s| - 1]) then 1 else 0)
  }

  lemma CountSnoc<T>(s: seq<T>, x: T, p: T -> bool)
    ensures Count(s + [x], p) == Count(s, p) + (if p(x) then 1 else 0)
  {
    assert (s + [x])[..|s|] == s;
  }

  /** Every element satisfies `p` exactly when all of them are counted. */
  lemma {:induction false} CountAll<T>(s: seq<T>, p: T -> bool)
    ensures Count(s, p) == |s| <==> forall i :: 0 <= i < |s| ==> p(s[i])
    decreases |s|
  {
    if s != [] {
      var pre := s[..|s| - 1];
      CountAll(pre, p);
      assert forall i :: 0 <= i < |pre| ==> pre[i] == s[i];
    }
  }

  /** How many positions of two equally long lists hold equal elements. */
  function MatchCount<T(==)>(a: seq<T>, b: seq<T>): (n: nat)
    requires |a| == |b|
    ensures n <= |a|
  {
    if a == [] then 0
    else MatchCount(a[..|a| - 1], b[..|b| - 1]) + (if a[|a| - 1] == b[|b| - 1] then 1 else 0)
  }

  /** All positions match exactly when the lists are equal. */
  lemma {:induction false} MatchCountFull<T>(a: seq<T>, b: seq<T>)
    requires |a| == |b|
    ensures MatchCount(a, b) == |a| <==> a == b
    decreases |a|
  {
    if a != [] {
      var pa, pb := a[..|a| - 1], b[..|b| - 1];
      MatchCountFull(pa, pb);
      assert a == pa + [a[|a| - 1]] && b == pb + [b[|b| - 1]];
      if a == b {
        assert pa == pb;
      }
    }
  }

  lemma MatchCountSnoc<T>(a: seq<T>, b: seq<T>, x: T, y: T)
    requires |a| == |b|
    ensures MatchCount(a + [x], b + [y]) == MatchCount(a, b) + (if x == y then 1 else 0)
  {
    assert (a + [x])[..|a|] == a && (b + [y])[..|b|] == b;
  }

  /**
   * The dictionary `d` after `foreach (x in s) d[key(x)] = x`, holding indices into `s`:
   * every key of `s` is present, and it maps to the LAST element with that key.
   */
  function LastIndexBy<T>(s: seq<T>, key: T -> string): (m: map<string, nat>)
    ensures forall k :: k in m ==> m[k] < |s|
  {
    if s == [] then map[]
    else LastIndexBy(s[..|s| - 1], key)[key(s[|s| - 1]) := |s| - 1]
  }

  /** The dictionary holds exactly the keys of `s`, each at the last index carrying it. */
  lemma {:induction false} LastIndexByCharacterised<T>(s: seq<T>, key: T -> string)
    ensures forall k :: k in LastIndexBy(s, key) ==> key(s[LastIndexBy(s, key)[k]]) == k
    ensures forall i :: 0 <= i < |s| ==> key(s[i]) in LastIndexBy(s, key) && i <= LastIndexBy(s, key)[key(s[i])]
    decreases |s|
  {
    if s != [] {
      var pre := s[..|s| - 1];
      LastIndexByCharacterised(pre, key);
      forall i | 0 <= i < |pre|
        ensures s[i] == pre[i]
      {
      }
    }
  }

  /** With distinct keys, the dictionary finds every element at its own index. */
  lemma LastIndexOfDistinct<T>(s: seq<T>, key: T -> string, i: nat)
    requires i < |s|
    requires forall a, b :: 0 <= a < b < |s| ==> key(s[a]) != key(s[b])
    ensures key(s[i]) in LastIndexBy(s, key) && LastIndexBy(s, key)[key(s[i])] == i
  {
    LastIndexByCharacterised(s, key);
    var m := LastIndexBy(s, key);
    var j := m[key(s[i])];
    assert key(s[j]) == key(s[i]);
    assert !(i < j);
  }

  /** The loop that fills such a dictionary. */
  method BuildLastIndex<T>(s: seq<T>, key: T -> string) returns (m: map<string, nat>)
    ensures m == LastIndexBy(s, key)
  {
    m := map[];
    var i := 0;
    while i < |s|
      invariant i <= |s|
      invariant m == LastIndexBy(s[..i], key)
    {
      assert s[..i + 1][..i] == s[..i];
      m := m[key(s[i]) := i];
      i := i + 1;
    }
    assert s[..i] == s;
  }
}
