/** The include-order formatter of checkstyle.py: each run of include lines is sorted by path. */
module IncludeOrder {
  import opened Wrappers
  import opened Seqs
  import opened Texts
  import opened Sorts
  import opened StableSorts

  // ----- include lines -----

  const PREFIX := "#include "

  predicate Opens(c: char) {
    c == '"' || c == '<'
  }

  predicate Closes(c: char) {
    c == '"' || c == '>'
  }

  /** The position of the first closing character, or the length. */
  function CloseAt(s: string, from: nat): (k: nat)
    requires from <= |s|
    ensures from <= k <= |s| && (k < |s| ==> Closes(s[k])) && forall j :: from <= j < k ==> !Closes(s[j])
    decreases |s| - from
  {
    if from == |s| || Closes(s[from]) then from else CloseAt(s, from + 1)
  }

  /** The path of an include line; None for any other line. */
  function PathOf(line: string): Option<string> {
    if |line| < 10 || line[..9] != PREFIX || !Opens(line[9]) then None
    else
      var k := CloseAt(line, 10);
      if k == |line| then None else Some(line[10..k])
  }

  predicate IsInclude(line: string) {
    PathOf(line).Some?
  }

  lemma IncludePath(open: char, path: string, close: char, rest: string)
    requires (open == '"' || open == '<') && (close == '"' || close == '>') && '"' !in path && '>' !in path
    ensures PathOf("#include " + [open] + path + [close] + rest) == Some(path)
  {
    var line := PREFIX + [open] + path + [close] + rest;
    assert line[..9] == PREFIX && line[9] == open;
    assert forall j :: 0 <= j < |path| ==> line[10 + j] == path[j];
    assert forall j :: 10 <= j < 10 + |path| ==> line[j] == path[j - 10];
    assert line[10 + |path|] == close;
    assert CloseAt(line, 10) == 10 + |path|;
    assert line[10..10 + |path|] == path;
  }

  /** Every include line has that form. */
  lemma IncludeForm(line: string) returns (open: char, close: char, rest: string)
    requires IsInclude(line)
    ensures (open == '"' || open == '<') && (close == '"' || close == '>')
    ensures '"' !in PathOf(line).value && '>' !in PathOf(line).value
    ensures line == "#include " + [open] + PathOf(line).value + [close] + rest
  {
    var k := CloseAt(line, 10);
    open, close, rest := line[9], line[k], line[k + 1..];
    assert line == line[..9] + [open] + line[10..k] + [close] + line[k + 1..];
  }

  // ----- sorting a run -----

  function KeyOf(line: string): string {
    match PathOf(line)
    case Some(path) => path
    case None => ""
  }

  function KeyedOf(lines: seq<string>): (keyed: seq<Keyed>)
    ensures |keyed| == |lines|
  {
    if lines == [] then []
    else
      var n := |lines| - 1;
      KeyedOf(lines[..n]) + [Keyed(lines[n], KeyOf(lines[n]))]
  }

  function LinesOf(keyed: seq<Keyed>): (lines: seq<string>)
    ensures |lines| == |keyed|
  {
    if keyed == [] then [] else LinesOf(keyed[..|keyed| - 1]) + [keyed[|keyed| - 1].line]
  }

  /** A run of include lines, sorted by path. */
  function SortedRun(run: seq<string>): (lines: seq<string>)
    ensures |lines| == |run|
  {
    LinesOf(Sorted(KeyedOf(run), KeyLe))
  }

  predicate Consistent(keyed: seq<Keyed>) {
    forall k :: k in keyed ==> k.key == KeyOf(k.line)
  }

  predicate AllIncludes(lines: seq<string>) {
    forall line :: line in lines ==> IsInclude(line)
  }

  lemma {:induction false} KeyedIsConsistent(lines: seq<string>)
    ensures Consistent(KeyedOf(lines)) && LinesOf(KeyedOf(lines)) == lines
  {
    if lines != [] {
      var n := |lines| - 1;
      KeyedIsConsistent(lines[..n]);
      InitLast(KeyedOf(lines[..n]), Keyed(lines[n], KeyOf(lines[n])));
    }
  }

  lemma KeyedPush(lines: seq<string>, line: string)
    ensures KeyedOf(lines + [line]) == KeyedOf(lines) + [Keyed(line, KeyOf(line))]
  {
    InitLast(lines, line);
  }

  lemma {:induction false} KeyedAgain(keyed: seq<Keyed>)
    requires Consistent(keyed)
    ensures KeyedOf(LinesOf(keyed)) == keyed
  {
    if keyed != [] {
      var n := |keyed| - 1;
      KeyedAgain(keyed[..n]);
      KeyedPush(LinesOf(keyed[..n]), keyed[n].line);
      TakeNext(keyed, n);
      TakeAll(keyed);
      assert keyed[n] == Keyed(keyed[n].line, KeyOf(keyed[n].line));
    }
  }

  lemma {:induction false} LinesContents(keyed: seq<Keyed>, line: string)
    ensures line in LinesOf(keyed) <==> exists k :: k in keyed && k.line == line
  {
    if keyed != [] {
      var n := |keyed| - 1;
      LinesContents(keyed[..n], line);
      assert keyed == keyed[..n] + [keyed[n]];
    }
  }

  lemma SortedConsistent(run: seq<string>)
    ensures Consistent(Sorted(KeyedOf(run), KeyLe))
  {
    KeyedIsConsistent(run);
    SortedContents(KeyedOf(run), KeyLe);
    forall k | k in Sorted(KeyedOf(run), KeyLe) ensures k.key == KeyOf(k.line) {
      assert k in multiset(Sorted(KeyedOf(run), KeyLe));
    }
  }

  lemma RunStaysIncludes(run: seq<string>)
    requires AllIncludes(run)
    ensures AllIncludes(SortedRun(run))
  {
    forall line | line in SortedRun(run) ensures IsInclude(line) {
      LinesContents(Sorted(KeyedOf(run), KeyLe), line);
      var k :| k in Sorted(KeyedOf(run), KeyLe) && k.line == line;
      assert k in multiset(Sorted(KeyedOf(run), KeyLe));
      SortedContents(KeyedOf(run), KeyLe);
      LinesContents(KeyedOf(run), line);
      KeyedIsConsistent(run);
    }
  }

  lemma RunSortedTwice(run: seq<string>)
    ensures SortedRun(SortedRun(run)) == SortedRun(run)
  {
    SortedConsistent(run);
    KeyedAgain(Sorted(KeyedOf(run), KeyLe));
    SortedTwice(KeyedOf(run));
  }

  lemma {:induction false} LinesBag(a: seq<Keyed>, b: seq<Keyed>)
    requires multiset(a) == multiset(b)
    ensures multiset(LinesOf(a)) == multiset(LinesOf(b))
  {
    if a == [] {
      assert multiset(b) == multiset{};
      assert |b| == 0;
    } else {
      var n := |a| - 1;
      LinesWithout(a, n);
      ConcatEmpty(a[..n]);
      assert a[n] in multiset(b);
      var k :| 0 <= k < |b| && b[k] == a[n];
      LinesWithout(b, k);
      Cancel(multiset(Without(a, n)), multiset(Without(b, k)), a[n]);
      LinesBag(Without(a, n), Without(b, k));
    }
  }

  lemma {:induction false} LinesWithout(a: seq<Keyed>, k: nat)
    requires k < |a|
    ensures multiset(a) == multiset(Without(a, k)) + multiset{a[k]}
    ensures multiset(LinesOf(a)) == multiset(LinesOf(Without(a, k))) + multiset{a[k].line}
  {
    var x, front, back := a[k], a[..k], a[k + 1..];
    assert a == front + [x] + back;
    LinesConcat(front + [x], back);
    LinesConcat(front, [x]);
    LinesConcat(front, back);
    assert LinesOf([x]) == [x.line];
    MultisetMiddle(front, x, back);
    MultisetMiddle(LinesOf(front), x.line, LinesOf(back));
  }

  lemma {:induction false} LinesConcat(a: seq<Keyed>, b: seq<Keyed>)
    ensures LinesOf(a + b) == LinesOf(a) + LinesOf(b)
  {
    if b == [] {
      ConcatEmpty(a);
      ConcatEmpty(LinesOf(a));
    } else {
      var n := |b| - 1;
      assert b == b[..n] + [b[n]];
      Assoc(a, b[..n], [b[n]]);
      InitLast(a + b[..n], b[n]);
      LinesConcat(a, b[..n]);
      Assoc(LinesOf(a), LinesOf(b[..n]), [b[n].line]);
    }
  }

  lemma RunContents(run: seq<string>)
    ensures multiset(SortedRun(run)) == multiset(run)
  {
    SortedContents(KeyedOf(run), KeyLe);
    LinesBag(Sorted(KeyedOf(run), KeyLe), KeyedOf(run));
    KeyedIsConsistent(run);
  }

  // ----- the whole text -----

  /** What has been put out after some lines, and the run of includes that has not. */
  datatype Scan = Scan(out: seq<string>, run: seq<string>)

  function ScanOf(lines: seq<string>): Scan {
    if lines == [] then Scan([], [])
    else
      var n := |lines| - 1;
      var s := ScanOf(lines[..n]);
      if IsInclude(lines[n]) then Scan(s.out, s.run + [lines[n]])
      else Scan(s.out + SortedRun(s.run) + [lines[n]], [])
  }

  function Formatted(lines: seq<string>): seq<string> {
    ScanOf(lines).out + SortedRun(ScanOf(lines).run)
  }

  function Format(data: string): string {
    Join(Formatted(Split(data, '\n')), '\n')
  }

  lemma ScanPush(lines: seq<string>, line: string)
    ensures ScanOf(lines + [line]) ==
      var s := ScanOf(lines);
      if IsInclude(line) then Scan(s.out, s.run + [line]) else Scan(Formatted(lines) + [line], [])
  {
    InitLast(lines, line);
  }

  lemma {:induction false} ScanLength(lines: seq<string>)
    ensures |ScanOf(lines).out| + |ScanOf(lines).run| == |Formatted(lines)| == |lines|
    ensures AllIncludes(ScanOf(lines).run)
  {
    if lines != [] {
      ScanLength(lines[..|lines| - 1]);
    }
  }

  /** Include lines are held back until another line comes. */
  lemma {:induction false} ScanIncludes(lines: seq<string>, run: seq<string>)
    requires AllIncludes(run)
    ensures ScanOf(lines + run) == Scan(ScanOf(lines).out, ScanOf(lines).run + run)
  {
    if run == [] {
      ConcatEmpty(lines);
      ConcatEmpty(ScanOf(lines).run);
    } else {
      var n := |run| - 1;
      assert run == run[..n] + [run[n]];
      Assoc(lines, run[..n], [run[n]]);
      ScanIncludes(lines, run[..n]);
      ScanPush(lines + run[..n], run[n]);
      Assoc(ScanOf(lines).run, run[..n], [run[n]]);
    }
  }

  /** A line that is no include cuts the text into independent parts. */
  lemma {:induction false} ScanCut(lines: seq<string>, more: seq<string>)
    requires more != [] && !IsInclude(more[0])
    ensures ScanOf(lines + more) == Scan(Formatted(lines) + ScanOf(more).out, ScanOf(more).run)
  {
    var n := |more| - 1;
    var x := more[n];
    assert more == more[..n] + [x];
    ScanPush(more[..n], x);
    if n == 0 {
      assert more[..0] == [] && Formatted([]) == [];
      assert lines + more == lines + [x];
      ScanPush(lines, x);
    } else {
      var s := ScanOf(more[..n]);
      ScanCut(lines, more[..n]);
      Assoc(lines, more[..n], [x]);
      ScanPush(lines + more[..n], x);
      Assoc(Formatted(lines), s.out, SortedRun(s.run));
      Assoc(Formatted(lines), Formatted(more[..n]), [x]);
    }
  }

  /**
   * A run of includes that cannot be made longer on either side comes out sorted by path, stably,
   * and the text before it and the text after it are formatted by themselves.
   */
  lemma RunsAreSorted(before: seq<string>, run: seq<string>, after: seq<string>)
    requires before == [] || !IsInclude(before[|before| - 1])
    requires AllIncludes(run)
    requires after == [] || !IsInclude(after[0])
    ensures Formatted(before + run + after) == Formatted(before) + SortedRun(run) + Formatted(after)
  {
    EndsOutside(before);
    ScanIncludes(before, run);
    ConcatEmpty(run);
    if after == [] {
      ConcatEmpty(before + run);
      assert Formatted([]) == [];
      ConcatEmpty(Formatted(before) + SortedRun(run));
    } else {
      ScanCut(before + run, after);
      Assoc(Formatted(before + run), ScanOf(after).out, SortedRun(ScanOf(after).run));
    }
  }

  lemma EndsOutside(lines: seq<string>)
    requires lines == [] || !IsInclude(lines[|lines| - 1])
    ensures ScanOf(lines) == Scan(Formatted(lines), [])
  {
    if lines != [] {
      ConcatEmpty(ScanOf(lines).out);
      assert SortedRun([]) == [];
    }
  }

  /** The lines not yet put out are the last ones; k counts from the end. */
  lemma {:induction false} HeldBack(lines: seq<string>, k: nat)
    requires k < |ScanOf(lines).run|
    ensures k < |lines| && ScanOf(lines).run[|ScanOf(lines).run| - 1 - k] == lines[|lines| - 1 - k]
  {
    if k > 0 {
      HeldBack(lines[..|lines| - 1], k - 1);
    }
  }

  lemma OutStays(lines: seq<string>, i: nat)
    requires i < |ScanOf(lines).out|
    ensures i < |lines|
    ensures if IsInclude(lines[i]) then IsInclude(ScanOf(lines).out[i]) else ScanOf(lines).out[i] == lines[i]
    decreases |lines|, 0
  {
    var n := |lines| - 1;
    ScanLength(lines[..n]);
    if i < n {
      OthersStay(lines[..n], i);
    }
  }

  /** Lines other than includes stay where they are, and includes stay among the includes. */
  lemma OthersStay(lines: seq<string>, i: nat)
    requires i < |lines|
    ensures |Formatted(lines)| == |lines|
    ensures if IsInclude(lines[i]) then IsInclude(Formatted(lines)[i]) else Formatted(lines)[i] == lines[i]
    decreases |lines|, 1
  {
    var s := ScanOf(lines);
    ScanLength(lines);
    if i < |s.out| {
      OutStays(lines, i);
    } else {
      HeldBack(lines, |lines| - 1 - i);
      RunStaysIncludes(s.run);
      assert Formatted(lines)[i] == SortedRun(s.run)[i - |s.out|];
    }
  }

  lemma {:induction false} ScanContents(lines: seq<string>)
    ensures multiset(ScanOf(lines).out) + multiset(ScanOf(lines).run) == multiset(lines)
  {
    if lines != [] {
      var n := |lines| - 1;
      var s := ScanOf(lines[..n]);
      ScanContents(lines[..n]);
      TakeNext(lines, n);
      TakeAll(lines);
      if IsInclude(lines[n]) {
        MultisetConcat(s.run, [lines[n]]);
        Regroup(multiset(s.out), multiset(s.run), multiset{lines[n]}, multiset{});
      } else {
        MultisetConcat(s.out + SortedRun(s.run), [lines[n]]);
        MultisetConcat(s.out, SortedRun(s.run));
        RunContents(s.run);
        PlusNothing(multiset(ScanOf(lines).out));
      }
    }
  }

  /** No line is lost or added. */
  lemma FormatContents(lines: seq<string>)
    ensures multiset(Formatted(lines)) == multiset(lines)
  {
    var s := ScanOf(lines);
    ScanContents(lines);
    RunContents(s.run);
    MultisetConcat(s.out, SortedRun(s.run));
  }

  // ----- formatting twice -----

  lemma {:induction false} OutIsFormatted(lines: seq<string>)
    ensures ScanOf(ScanOf(lines).out) == Scan(ScanOf(lines).out, [])
  {
    if lines != [] {
      var n := |lines| - 1;
      var s := ScanOf(lines[..n]);
      OutIsFormatted(lines[..n]);
      if !IsInclude(lines[n]) {
        ScanLength(lines[..n]);
        RunStaysIncludes(s.run);
        ScanIncludes(s.out, SortedRun(s.run));
        ConcatEmpty(SortedRun(s.run));
        RunSortedTwice(s.run);
        ScanPush(s.out + SortedRun(s.run), lines[n]);
      }
    }
  }

  /** Formatting formatted lines changes nothing. */
  lemma FormattedTwice(lines: seq<string>)
    ensures Formatted(Formatted(lines)) == Formatted(lines)
  {
    var s := ScanOf(lines);
    OutIsFormatted(lines);
    ScanLength(lines);
    RunStaysIncludes(s.run);
    ScanIncludes(s.out, SortedRun(s.run));
    ConcatEmpty(SortedRun(s.run));
    RunSortedTwice(s.run);
  }

  /** So it is for texts: the lines of the result are the formatted lines. */
  lemma FormatTwice(data: string)
    ensures Split(Format(data), '\n') == Formatted(Split(data, '\n'))
    ensures Format(Format(data)) == Format(data)
  {
    var lines := Split(data, '\n');
    SplitHasNone(data, '\n');
    FormatContents(lines);
    forall p | p in Formatted(lines) ensures '\n' !in p {
      assert p in multiset(lines);
    }
    ScanLength(lines);
    SplitJoin(Formatted(lines), '\n');
    FormattedTwice(lines);
  }

  // ----- the formatter -----

  /** IncludeOrderFormatter.format. */
  method FormatText(data: string) returns (text: string)
    ensures text == Format(data)
  {
    var input := Split(data, '\n');
    var lines: seq<string>, includes: seq<Keyed> := [], [];
    for i := 0 to |input|
      invariant lines == ScanOf(input[..i]).out && includes == KeyedOf(ScanOf(input[..i]).run)
    {
      TakeNext(input, i);
      ScanPush(input[..i], input[i]);
      var path := PathOf(input[i]);
      if path.Some? {
        InitLast(ScanOf(input[..i]).run, input[i]);
        includes := includes + [Keyed(input[i], path.value)];
        continue;
      }
      lines := lines + PutOut(includes) + [input[i]];
      includes := [];
    }
    TakeAll(input);
    lines := lines + PutOut(includes);
    text := Join(lines, '\n');
  }

  /** The stashed includes, sorted; none if there are none. */
  function PutOut(includes: seq<Keyed>): seq<string> {
    if |includes| > 0 then LinesOf(Sorted(includes, KeyLe)) else []
  }
}
