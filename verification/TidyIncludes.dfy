/** The texts that the include-order formatter leaves as they are. */
module TidyIncludes {
  import opened IncludeOrder
  import opened Seqs
  import opened Sorts
  import opened StableSorts
  import opened Texts

  /** An include line directly after another one does not come before it by path. */
  predicate Follows(a: string, b: string) {
    IsInclude(a) && IsInclude(b) ==> LessEq(KeyOf(a), KeyOf(b))
  }

  predicate Tidy(lines: seq<string>) {
    |lines| <= 1 || (Tidy(lines[..|lines| - 1]) && Follows(lines[|lines| - 2], lines[|lines| - 1]))
  }

  predicate RunInOrder(run: seq<string>) {
    InOrder(KeyedOf(run))
  }

  lemma {:induction false} TidyPush(lines: seq<string>, line: string)
    requires Tidy(lines) && (lines == [] || Follows(lines[|lines| - 1], line))
    ensures Tidy(lines + [line])
  {
    InitLast(lines, line);
  }

  lemma {:induction false} RunPush(run: seq<string>, line: string)
    requires RunInOrder(run) && (run == [] || LessEq(KeyOf(run[|run| - 1]), KeyOf(line)))
    ensures RunInOrder(run + [line])
  {
    InitLast(run, line);
    AscendPush(KeyedOf(run), Keyed(line, KeyOf(line)), KeyLe);
  }

  lemma OrderedRunStays(run: seq<string>)
    requires RunInOrder(run)
    ensures SortedRun(run) == run
  {
    SortedIsTheOne(KeyedOf(run), KeyedOf(run));
    KeyedIsConsistent(run);
  }

  // ----- a tidy text stays -----

  lemma {:induction false} TidyScan(lines: seq<string>)
    requires Tidy(lines)
    ensures ScanOf(lines).out + ScanOf(lines).run == lines && RunInOrder(ScanOf(lines).run)
  {
    if lines != [] {
      var n := |lines| - 1;
      var s := ScanOf(lines[..n]);
      TidyScan(lines[..n]);
      assert lines == lines[..n] + [lines[n]];
      if IsInclude(lines[n]) {
        Assoc(s.out, s.run, [lines[n]]);
        RunGoesOn(lines[..n], lines[n]);
      } else {
        OrderedRunStays(s.run);
        ConcatEmpty(lines);
      }
    }
  }

  lemma {:induction false} RunGoesOn(lines: seq<string>, line: string)
    requires IsInclude(line) && (lines == [] || Follows(lines[|lines| - 1], line))
    requires RunInOrder(ScanOf(lines).run)
    ensures RunInOrder(ScanOf(lines).run + [line])
  {
    if ScanOf(lines).run != [] {
      LastOfRun(lines);
    }
    RunPush(ScanOf(lines).run, line);
  }

  lemma {:induction false} LastOfRun(lines: seq<string>)
    requires ScanOf(lines).run != []
    ensures var run := ScanOf(lines).run;
      lines != [] && run[|run| - 1] == lines[|lines| - 1] && IsInclude(lines[|lines| - 1])
  {
  }

  // ----- a formatted text is tidy -----

  lemma {:induction false} RunInit(run: seq<string>)
    requires run != [] && RunInOrder(run)
    ensures RunInOrder(run[..|run| - 1])
    ensures |run| > 1 ==> LessEq(KeyOf(run[|run| - 2]), KeyOf(run[|run| - 1]))
  {
    InitLast(KeyedOf(run[..|run| - 1]), Keyed(run[|run| - 1], KeyOf(run[|run| - 1])));
  }

  lemma {:induction false} TidyConcat(lines: seq<string>, run: seq<string>)
    requires Tidy(lines) && (lines == [] || !IsInclude(lines[|lines| - 1])) && RunInOrder(run)
    ensures Tidy(lines + run)
  {
    if run == [] {
      ConcatEmpty(lines);
    } else {
      var n := |run| - 1;
      RunInit(run);
      TidyConcat(lines, run[..n]);
      TidyNext(lines, run[..n], run[n]);
      TakeNext(run, n);
      TakeAll(run);
      Assoc(lines, run[..n], [run[n]]);
    }
  }

  lemma {:induction false} TidyNext(lines: seq<string>, run: seq<string>, line: string)
    requires Tidy(lines + run) && (lines == [] || !IsInclude(lines[|lines| - 1]))
    requires run == [] || LessEq(KeyOf(run[|run| - 1]), KeyOf(line))
    ensures Tidy(lines + run + [line])
  {
    if run == [] {
      ConcatEmpty(lines);
    } else {
      assert (lines + run)[|lines + run| - 1] == run[|run| - 1];
    }
    TidyPush(lines + run, line);
  }

  lemma SortedRunInOrder(run: seq<string>)
    ensures RunInOrder(SortedRun(run))
  {
    SortedConsistent(run);
    KeyedAgain(Sorted(KeyedOf(run), KeyLe));
    SortedIsStable(KeyedOf(run), "");
  }

  lemma {:induction false} OutIsTidy(lines: seq<string>)
    ensures var out := ScanOf(lines).out;
      Tidy(out) && (out == [] || !IsInclude(out[|out| - 1]))
    decreases |lines|, 0
  {
    if lines != [] {
      var n := |lines| - 1;
      OutIsTidy(lines[..n]);
      if !IsInclude(lines[n]) {
        FormattedIsTidy(lines[..n]);
        TidyPush(Formatted(lines[..n]), lines[n]);
      }
    }
  }

  lemma FormattedIsTidy(lines: seq<string>)
    ensures Tidy(Formatted(lines))
    decreases |lines|, 1
  {
    OutIsTidy(lines);
    SortedRunInOrder(ScanOf(lines).run);
    TidyConcat(ScanOf(lines).out, SortedRun(ScanOf(lines).run));
  }

  /**
   * The formatter changes a text exactly when two include lines that follow each other directly are
   * out of order.
   */
  lemma LeftAloneWhen(data: string)
    ensures Format(data) == data <==> Tidy(Split(data, '\n'))
  {
    var lines := Split(data, '\n');
    FormatTwice(data);
    FormattedIsTidy(lines);
    if Tidy(lines) {
      TidyScan(lines);
      OrderedRunStays(ScanOf(lines).run);
      JoinSplit(data, '\n');
    }
  }
}
