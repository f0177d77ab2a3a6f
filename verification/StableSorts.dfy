/**
 * Stable sorting of lines by a text key.  `Sorted` by `KeyLe` is what list.sort returns; the lemmas say that
 * it is the only list that is in order and has the lines of each key in their order.
 */
module StableSorts {
  import opened Seqs
  import opened Sorts

  datatype Keyed = Keyed(line: string, key: string)

  /** Texts are compared character by character; a prefix comes first. */
  predicate LessEq(a: string, b: string) {
    a == "" || (b != "" && (a[0] < b[0] || (a[0] == b[0] && LessEq(a[1..], b[1..]))))
  }

  lemma {:induction false} LessEqIsTotal(a: string, b: string)
    ensures LessEq(a, b) || LessEq(b, a)
    ensures LessEq(a, b) && LessEq(b, a) <==> a == b
  {
    if a != "" && b != "" {
      LessEqIsTotal(a[1..], b[1..]);
      assert a == [a[0]] + a[1..] && b == [b[0]] + b[1..];
    }
  }

  lemma {:induction false} LessEqIsTransitive(a: string, b: string, c: string)
    requires LessEq(a, b) && LessEq(b, c)
    ensures LessEq(a, c)
  {
    if a != "" && a[0] == b[0] == c[0] {
      LessEqIsTransitive(a[1..], b[1..], c[1..]);
    }
  }

  lemma {:induction false} CommonPrefix(p: string, a: string, b: string)
    ensures LessEq(p + a, p + b) <==> LessEq(a, b)
  {
    if p == "" {
      assert p + a == a && p + b == b;
    } else {
      assert (p + a)[1..] == p[1..] + a && (p + b)[1..] == p[1..] + b;
      CommonPrefix(p[1..], a, b);
    }
  }

  /**
   * Of two texts with a common beginning, the one with the smaller character at the first place
   * where they differ comes first; a text comes before any continuation of it, never after.
   */
  lemma FirstDifference(p: string, c: char, s: string, d: char, t: string)
    requires c != d
    ensures LessEq(p + ([c] + s), p + ([d] + t)) <==> c < d
    ensures LessEq(p, p + ([d] + t)) && !LessEq(p + ([d] + t), p)
  {
    CommonPrefix(p, [c] + s, [d] + t);
    CommonPrefix(p, "", [d] + t);
    CommonPrefix(p, [d] + t, "");
    assert p + "" == p;
  }

  predicate KeyLe(a: Keyed, b: Keyed) {
    LessEq(a.key, b.key)
  }

  lemma KeyLeIsTotal()
    ensures IsTotal(KeyLe)
  {
    forall a: Keyed, b: Keyed ensures KeyLe(a, b) || KeyLe(b, a) {
      LessEqIsTotal(a.key, b.key);
    }
  }

  predicate InOrder(s: seq<Keyed>) {
    Ascending(s, KeyLe)
  }

  /** The elements of one key, in their order. */
  function OfKey(s: seq<Keyed>, key: string): seq<Keyed> {
    if s == [] then []
    else OfKey(s[..|s| - 1], key) + if s[|s| - 1].key == key then [s[|s| - 1]] else []
  }

  lemma OfKeyPush(s: seq<Keyed>, x: Keyed, key: string)
    ensures OfKey(s + [x], key) == OfKey(s, key) + if x.key == key then [x] else []
  {
    InitLast(s, x);
  }

  lemma {:induction false} InsertStable(s: seq<Keyed>, x: Keyed, key: string)
    ensures OfKey(Insert(s, x, KeyLe), key) == OfKey(s, key) + if x.key == key then [x] else []
  {
    if s == [] || KeyLe(s[|s| - 1], x) {
      OfKeyPush(s, x, key);
    } else {
      var n := |s| - 1;
      LessEqIsTotal(s[n].key, x.key);
      InsertStable(s[..n], x, key);
      OfKeyPush(Insert(s[..n], x, KeyLe), s[n], key);
    }
  }

  lemma {:induction false} SortedKeepsKeys(s: seq<Keyed>, key: string)
    ensures OfKey(Sorted(s, KeyLe), key) == OfKey(s, key)
  {
    if s != [] {
      var n := |s| - 1;
      SortedKeepsKeys(s[..n], key);
      InsertStable(Sorted(s[..n], KeyLe), s[n], key);
    }
  }

  /** The result is in order, and keeps the elements of each key in their order. */
  lemma {:induction false} SortedIsStable(s: seq<Keyed>, key: string)
    ensures InOrder(Sorted(s, KeyLe)) && OfKey(Sorted(s, KeyLe), key) == OfKey(s, key)
  {
    KeyLeIsTotal();
    SortedAscends(s, KeyLe);
    SortedKeepsKeys(s, key);
  }

  // ----- there is no other such list -----

  lemma {:induction false} LastIsGreatest(s: seq<Keyed>, key: string)
    requires InOrder(s) && OfKey(s, key) != []
    ensures LessEq(key, s[|s| - 1].key)
  {
    var n := |s| - 1;
    if s[n].key == key {
      LessEqIsTotal(key, key);
    } else {
      LastIsGreatest(s[..n], key);
      LessEqIsTransitive(key, s[n - 1].key, s[n].key);
    }
  }

  lemma LastOfKey(s: seq<Keyed>)
    requires s != []
    ensures var of := OfKey(s, s[|s| - 1].key); of != [] && of[|of| - 1] == s[|s| - 1]
  {
  }

  lemma SameLast(s: seq<Keyed>, t: seq<Keyed>)
    requires s != [] && t != [] && InOrder(s) && InOrder(t) && forall key :: OfKey(s, key) == OfKey(t, key)
    ensures s[|s| - 1] == t[|t| - 1]
  {
    var x, y := s[|s| - 1], t[|t| - 1];
    LastOfKey(s);
    LastOfKey(t);
    LastIsGreatest(t, x.key);
    LastIsGreatest(s, y.key);
    LessEqIsTotal(x.key, y.key);
  }

  lemma InitOfKey(s: seq<Keyed>, key: string)
    requires s != []
    ensures OfKey(s[..|s| - 1], key) ==
      if s[|s| - 1].key == key then OfKey(s, key)[..|OfKey(s, key)| - 1] else OfKey(s, key)
  {
    ConcatEmpty(OfKey(s[..|s| - 1], key));
  }

  lemma {:induction false} OrderedIsUnique(s: seq<Keyed>, t: seq<Keyed>)
    requires InOrder(s) && InOrder(t) && forall key :: OfKey(s, key) == OfKey(t, key)
    ensures s == t
  {
    if s == [] {
      if t != [] {
        LastOfKey(t);
      }
    } else if t == [] {
      LastOfKey(s);
    } else {
      var m, n := |s| - 1, |t| - 1;
      SameLast(s, t);
      forall key ensures OfKey(s[..m], key) == OfKey(t[..n], key) {
        InitOfKey(s, key);
        InitOfKey(t, key);
      }
      OrderedIsUnique(s[..m], t[..n]);
      assert s == s[..m] + [s[m]] && t == t[..n] + [t[n]];
    }
  }

  /** A list in order with the elements of each key in their order is the sorted one. */
  lemma SortedIsTheOne(s: seq<Keyed>, t: seq<Keyed>)
    requires InOrder(t) && forall key :: OfKey(t, key) == OfKey(s, key)
    ensures t == Sorted(s, KeyLe)
  {
    SortedIsStable(s, "");
    forall key ensures OfKey(t, key) == OfKey(Sorted(s, KeyLe), key) {
      SortedIsStable(s, key);
    }
    OrderedIsUnique(t, Sorted(s, KeyLe));
  }

  lemma SortedTwice(s: seq<Keyed>)
    ensures Sorted(Sorted(s, KeyLe), KeyLe) == Sorted(s, KeyLe)
  {
    SortedIsStable(s, "");
    SortedIsTheOne(Sorted(s, KeyLe), Sorted(s, KeyLe));
  }
}
