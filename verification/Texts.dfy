/** Splitting a text at a separator, and joining it again. */
module Texts {
  import opened Seqs

  /** One character more: a new part after a separator, or a longer last part. */
  function AddChar(parts: seq<string>, c: char, sep: char): (r: seq<string>)
    requires parts != []
    ensures r != []
  {
    var last := |parts| - 1;
    if c == sep then parts + [""] else parts[..last] + [parts[last] + [c]]
  }

  /** The parts between separators; there is always at least one. */
  function Split(s: string, sep: char): (parts: seq<string>)
    ensures parts != []
  {
    if s == "" then [""] else AddChar(Split(s[..|s| - 1], sep), s[|s| - 1], sep)
  }

  function Join(parts: seq<string>, sep: char): string {
    if parts == [] then ""
    else
      var n := |parts| - 1;
      if n == 0 then parts[0] else Join(parts[..n], sep) + [sep] + parts[n]
  }

  lemma SplitPush(s: string, c: char, sep: char)
    ensures Split(s + [c], sep) == AddChar(Split(s, sep), c, sep)
  {
    InitLast(s, c);
  }

  lemma AddCharConcat(p: seq<string>, q: seq<string>, c: char, sep: char)
    requires q != []
    ensures AddChar(p + q, c, sep) == p + AddChar(q, c, sep)
  {
    var last := |q| - 1;
    if c == sep {
      Assoc(p, q, [""]);
    } else {
      assert (p + q)[..|p| + last] == p + q[..last];
      Assoc(p, q[..last], [q[last] + [c]]);
    }
  }

  /** Splitting takes a separated pair of texts apart. */
  lemma {:induction false} SplitConcat(a: string, b: string, sep: char)
    ensures Split(a + [sep] + b, sep) == Split(a, sep) + Split(b, sep)
  {
    if b == "" {
      ConcatEmpty(a + [sep]);
      SplitPush(a, sep, sep);
    } else {
      var n := |b| - 1;
      assert b == b[..n] + [b[n]];
      Assoc(a + [sep], b[..n], [b[n]]);
      SplitConcat(a, b[..n], sep);
      SplitPush(a + [sep] + b[..n], b[n], sep);
      AddCharConcat(Split(a, sep), Split(b[..n], sep), b[n], sep);
    }
  }

  lemma {:induction false} SplitOne(s: string, sep: char)
    requires sep !in s
    ensures Split(s, sep) == [s]
  {
    if s != "" {
      var n := |s| - 1;
      SplitOne(s[..n], sep);
      assert s == s[..n] + [s[n]];
    }
  }

  predicate NoneHas(parts: seq<string>, sep: char) {
    forall i :: 0 <= i < |parts| ==> sep !in parts[i]
  }

  lemma {:induction false} SplitHasNone(s: string, sep: char)
    ensures NoneHas(Split(s, sep), sep)
  {
    if s != "" {
      SplitHasNone(s[..|s| - 1], sep);
    }
  }

  lemma SplitMore(init: string, parts: seq<string>, last: string, sep: char)
    requires Split(init, sep) == parts && sep !in last
    ensures Split(init + [sep] + last, sep) == parts + [last]
  {
    SplitOne(last, sep);
    SplitConcat(init, last, sep);
  }

  /** Splitting undoes joining, ... */
  lemma {:induction false} SplitJoin(parts: seq<string>, sep: char)
    requires parts != [] && NoneHas(parts, sep)
    ensures Split(Join(parts, sep), sep) == parts
  {
    var n := |parts| - 1;
    assert parts == parts[..n] + [parts[n]];
    if n == 0 {
      SplitOne(parts[0], sep);
    } else {
      SplitJoin(parts[..n], sep);
      SplitMore(Join(parts[..n], sep), parts[..n], parts[n], sep);
    }
  }

  /** ... and joining undoes splitting. */
  lemma {:induction false} JoinSplit(s: string, sep: char)
    ensures Join(Split(s, sep), sep) == s
  {
    if s != "" {
      var n := |s| - 1;
      var p := Split(s[..n], sep);
      JoinSplit(s[..n], sep);
      assert s == s[..n] + [s[n]];
      if s[n] == sep {
        InitLast(p, "");
        ConcatEmpty(s);
      } else {
        var last := |p| - 1;
        InitLast(p[..last], p[last] + [s[n]]);
        if last > 0 {
          Assoc(Join(p[..last], sep) + [sep], p[last], [s[n]]);
        }
      }
    }
  }
}
