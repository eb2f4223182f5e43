/** The two array helpers the plot borrows from lodash, on sequences. */
module Lists {

  /** No value occurs twice. */
  predicate NoDup<T(==)>(s: seq<T>)
  {
    forall i, j :: 0 <= i < j < |s| ==> s[i] != s[j]
  }

  /** `_.indexOf(s, v)`: the position of the first occurrence of `v`, or -1. */
  function IndexOf<T(==)>(s: seq<T>, v: T): (r: int)
    ensures -1 <= r < |s|
    ensures r == -1 <==> v !in s
    ensures r >= 0 ==> s[r] == v && forall k :: 0 <= k < r ==> s[k] != v
  {
    if |s| == 0 then -1
    else if s[0] == v then 0
    else
      var t := IndexOf(s[1..], v);
      if t == -1 then -1 else t + 1
  }

  /** `_.remove(s, d => d == v)`: every occurrence of `v` dropped, the rest kept in order. */
  function RemoveAll<T(==,!new)>(s: seq<T>, v: T): (r: seq<T>)
    ensures forall x :: x in r <==> x in s && x != v
    ensures NoDup(s) ==> NoDup(r)
  {
    if |s| == 0 then []
    else
      var rest := RemoveAll(s[1..], v);
      if s[0] == v then rest
      else
        assert s[0] !in s[1..] ==> s[0] !in rest;
        NoDupCons(s[0], rest);
        [s[0]] + rest
  }

  /** Prepending a fresh value keeps a sequence duplicate-free. */
  lemma NoDupCons<T>(x: T, s: seq<T>)
    ensures NoDup(s) && x !in s ==> NoDup([x] + s)
  {
    if NoDup(s) && x !in s {
      var t := [x] + s;
      forall i, j | 0 <= i < j < |t|
        ensures t[i] != t[j]
      {
        if i == 0 {
          assert t[j] == s[j - 1];
        } else {
          assert t[i] == s[i - 1] && t[j] == s[j - 1];
        }
      }
    }
  }

  /** Removing every `v` from `s + [v]` gives back `s` when `s` held no `v`. */
  lemma {:induction false} RemoveAllAppended<T(!new)>(s: seq<T>, v: T)
    requires v !in s
    ensures RemoveAll(s + [v], v) == s
  {
    if |s| == 0 {
      assert [v][1..] == [];
    } else {
      assert (s + [v])[1..] == s[1..] + [v];
      RemoveAllAppended(s[1..], v);
      assert [s[0]] + s[1..] == s;
    }
  }
}
