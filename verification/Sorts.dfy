/** Sorting by insertion with any total comparison; it is stable. */
module Sorts {
  import opened Seqs

  ghost predicate IsTotal<T(!new)>(le: (T, T) -> bool) {
    forall a, b :: le(a, b) || le(b, a)
  }

  predicate Ascending<T>(s: seq<T>, le: (T, T) -> bool) {
    |s| <= 1 || (le(s[|s| - 2], s[|s| - 1]) && Ascending(s[..|s| - 1], le))
  }

  /** Put x after all elements that are not greater. */
  function Insert<T>(s: seq<T>, x: T, le: (T, T) -> bool): (r: seq<T>)
    ensures |r| == |s| + 1
  {
    if s == [] then [x]
    else
      var n := |s| - 1;
      if le(s[n], x) then s + [x] else Insert(s[..n], x, le) + [s[n]]
  }

  function Sorted<T>(s: seq<T>, le: (T, T) -> bool): (r: seq<T>)
    ensures |r| == |s|
  {
    if s == [] then [] else Insert(Sorted(s[..|s| - 1], le), s[|s| - 1], le)
  }

  lemma {:induction false} InsertContents<T>(s: seq<T>, x: T, le: (T, T) -> bool)
    ensures multiset(Insert(s, x, le)) == multiset(s) + multiset{x}
  {
    if s == [] || le(s[|s| - 1], x) {
      MultisetConcat(s, [x]);
    } else {
      var n := |s| - 1;
      InsertContents(s[..n], x, le);
      assert s == s[..n] + [s[n]];
      MultisetConcat(s[..n], [s[n]]);
      MultisetConcat(Insert(s[..n], x, le), [s[n]]);
    }
  }

  lemma {:induction false} AscendPush<T>(s: seq<T>, x: T, le: (T, T) -> bool)
    requires Ascending(s, le) && (s == [] || le(s[|s| - 1], x))
    ensures Ascending(s + [x], le)
  {
    InitLast(s, x);
  }

  lemma InsertLast<T>(s: seq<T>, x: T, le: (T, T) -> bool)
    requires s != []
    ensures Insert(s, x, le)[|s|] == if le(s[|s| - 1], x) then x else s[|s| - 1]
  {
  }

  lemma {:induction false} InsertAscends<T(!new)>(s: seq<T>, x: T, le: (T, T) -> bool)
    requires IsTotal(le) && Ascending(s, le)
    ensures Ascending(Insert(s, x, le), le)
  {
    if s == [] || le(s[|s| - 1], x) {
      AscendPush(s, x, le);
    } else {
      var n := |s| - 1;
      assert le(s[n], x) || le(x, s[n]);
      InsertAscends(s[..n], x, le);
      if n > 0 {
        InsertLast(s[..n], x, le);
      }
      AscendPush(Insert(s[..n], x, le), s[n], le);
    }
  }

  lemma {:induction false} SortedAscends<T(!new)>(s: seq<T>, le: (T, T) -> bool)
    requires IsTotal(le)
    ensures Ascending(Sorted(s, le), le)
  {
    if s != [] {
      SortedAscends(s[..|s| - 1], le);
      InsertAscends(Sorted(s[..|s| - 1], le), s[|s| - 1], le);
    }
  }

  lemma {:induction false} SortedContents<T>(s: seq<T>, le: (T, T) -> bool)
    ensures multiset(Sorted(s, le)) == multiset(s)
  {
    if s != [] {
      var n := |s| - 1;
      SortedContents(s[..n], le);
      InsertContents(Sorted(s[..n], le), s[n], le);
      assert s == s[..n] + [s[n]];
      MultisetConcat(s[..n], [s[n]]);
    }
  }

  /** std::sort: some ascending permutation; which one it is does not matter to its callers. */
  method Sort<T(!new)>(s: seq<T>, le: (T, T) -> bool) returns (r: seq<T>)
    requires IsTotal(le)
    ensures Ascending(r, le) && multiset(r) == multiset(s)
  {
    r := [];
    TakeAll(s);
    for i := 0 to |s|
      invariant Ascending(r, le) && multiset(r) == multiset(s[..i])
    {
      InsertAscends(r, s[i], le);
      InsertContents(r, s[i], le);
      TakeNext(s, i);
      r := Insert(r, s[i], le);
    }
  }
}
