/** Diff hunks of checkstyle.py: the line numbers of both sides, and cutting a diff into hunks. */
module Diffs {
  import opened Wrappers
  import opened Seqs

  // ----- hunk headers -----

  predicate IsDigit(c: char) {
    '0' <= c <= '9'
  }

  /** The digits at the start of a text, and what comes after them. */
  function TakeDigits(s: string): (digits: string)
    ensures Digits(digits)
  {
    if s == "" || !IsDigit(s[0]) then "" else [s[0]] + TakeDigits(s[1..])
  }

  function SkipDigits(s: string): string {
    if s == "" || !IsDigit(s[0]) then s else SkipDigits(s[1..])
  }

  predicate Digits(s: string) {
    forall j :: 0 <= j < |s| ==> IsDigit(s[j])
  }

  function Number(digits: string): nat
    requires Digits(digits)
  {
    if digits == "" then 0
    else
      var c := digits[|digits| - 1];
      assert IsDigit(c);
      Number(digits[..|digits| - 1]) * 10 + (c as int - '0' as int)
  }

  /** Numbers are read in decimal: one more digit counts ten times what stands before it. */
  lemma NumberPush(digits: string, c: char)
    requires Digits(digits) && IsDigit(c)
    ensures Number(digits + [c]) == 10 * Number(digits) + (c as int - '0' as int)
  {
    InitLast(digits, c);
  }

  /** A number as it is written. */
  function Decimal(n: nat): (s: string)
    ensures s != "" && Digits(s)
  {
    (if n < 10 then "" else Decimal(n / 10)) + [('0' as int + n % 10) as char]
  }

  /** Reading gives the number that was written. */
  lemma {:induction false} DecimalRead(n: nat)
    ensures Number(Decimal(n)) == n
  {
    var c := ('0' as int + n % 10) as char;
    if n < 10 {
      NumberPush("", c);
    } else {
      DecimalRead(n / 10);
      NumberPush(Decimal(n / 10), c);
    }
  }

  /** A number, then perhaps a comma, then perhaps another number: the first, and what comes after. */
  function Range(s: string): Option<(nat, string)> {
    var rest := SkipDigits(s);
    if TakeDigits(s) == "" then None
    else Some((Number(TakeDigits(s)), SkipDigits(if rest != "" && rest[0] == ',' then rest[1..] else rest)))
  }

  /** What comes after a given text. */
  function After(s: string, text: string): Option<string>
    requires text != ""
  {
    if text <= s then Some(s[|text|..]) else None
  }

  /** The first lines of both sides, if the line is a hunk header. */
  function Header(line: string): Option<(nat, nat)> {
    match After(line, "@@ -")
    case None => None
    case Some(s) =>
      match Range(s)
      case None => None
      case Some((from, t)) =>
        match After(t, " +")
        case None => None
        case Some(u) =>
          match Range(u)
          case None => None
          case Some((to, v)) => if After(v, " @@").Some? then Some((from, to)) else None
  }

  lemma {:induction false} DigitsThen(digits: string, t: string)
    requires Digits(digits) && (t == "" || !IsDigit(t[0]))
    ensures TakeDigits(digits + t) == digits && SkipDigits(digits + t) == t
  {
    if digits == "" {
      ConcatEmpty(t);
    } else {
      assert (digits + t)[1..] == digits[1..] + t && (digits + t)[0] == digits[0];
      assert digits == [digits[0]] + digits[1..];
      DigitsThen(digits[1..], t);
    }
  }

  /** How a header is written: a count comes after a comma, or is left out. */
  predicate IsCount(comma: string, count: string) {
    Digits(count) && (comma == [','] || (comma == "" && count == ""))
  }

  lemma RangeThen(number: string, comma: string, count: string, t: string)
    requires number != "" && Digits(number) && IsCount(comma, count) && t != "" && t[0] == ' '
    ensures Range(number + (comma + (count + t))) == Some((Number(number), t))
  {
    DigitsThen(number, comma + (count + t));
    DigitsThen(count, t);
    if comma == "" {
      ConcatEmpty(t);
      ConcatEmpty(count + t);
    } else {
      assert (comma + (count + t))[1..] == count + t;
    }
  }

  lemma AfterThen(text: string, t: string)
    requires text != ""
    ensures After(text + t, text) == Some(t)
  {
    assert (text + t)[|text|..] == t;
  }

  /** A header, as diff writes it, gives the first lines of both sides; the counts do not matter. */
  lemma HeaderRead(
      from: string, comma1: string, count1: string, to: string, comma2: string, count2: string, rest: string)
    requires from != "" && Digits(from) && IsCount(comma1, count1)
    requires to != "" && Digits(to) && IsCount(comma2, count2)
    ensures Header("@@ -" + (from + (comma1 + (count1 + (" +" + (to + (comma2 + (count2 + (" @@" + rest)))))))))
         == Some((Number(from), Number(to)))
  {
    var v := " @@" + rest;
    var u := to + (comma2 + (count2 + v));
    var t := " +" + u;
    AfterThen("@@ -", from + (comma1 + (count1 + t)));
    RangeThen(from, comma1, count1, t);
    AfterThen(" +", u);
    RangeThen(to, comma2, count2, v);
    AfterThen(" @@", rest);
  }

  lemma {:induction false} DigitsSplit(s: string)
    ensures s == TakeDigits(s) + SkipDigits(s)
    ensures SkipDigits(s) == "" || !IsDigit(SkipDigits(s)[0])
  {
    if s == "" || !IsDigit(s[0]) {
      assert "" + s == s;
    } else {
      DigitsSplit(s[1..]);
      assert s == [s[0]] + s[1..];
      Assoc([s[0]], TakeDigits(s[1..]), SkipDigits(s[1..]));
    }
  }

  /** What a range is read from. */
  lemma RangeForm(s: string) returns (number: string, comma: string, count: string)
    requires Range(s).Some?
    ensures number != "" && Digits(number) && IsCount(comma, count)
    ensures Range(s).value.0 == Number(number) && s == number + (comma + (count + Range(s).value.1))
  {
    number := TakeDigits(s);
    var rest := SkipDigits(s);
    DigitsSplit(s);
    if rest != "" && rest[0] == ',' {
      comma, count := [','], TakeDigits(rest[1..]);
      DigitsSplit(rest[1..]);
      assert rest == comma + rest[1..];
    } else {
      comma, count := "", "";
      SkipNothing(rest);
      assert "" + ("" + rest) == rest;
    }
  }

  lemma SkipNothing(s: string)
    requires s == "" || !IsDigit(s[0])
    ensures SkipDigits(s) == s
  {
  }

  lemma AfterForm(s: string, text: string)
    requires text != "" && After(s, text).Some?
    ensures s == text + After(s, text).value
  {
  }

  /** Nothing else is taken for a header: every line that is has that form. */
  lemma HeaderForm(line: string)
    returns (from: string, comma1: string, count1: string, to: string, comma2: string, count2: string, rest: string)
    requires Header(line).Some?
    ensures from != "" && Digits(from) && IsCount(comma1, count1)
    ensures to != "" && Digits(to) && IsCount(comma2, count2)
    ensures line == "@@ -" + (from + (comma1 + (count1 + (" +" + (to + (comma2 + (count2 + (" @@" + rest))))))))
    ensures Header(line) == Some((Number(from), Number(to)))
  {
    AfterForm(line, "@@ -");
    var s := After(line, "@@ -").value;
    from, comma1, count1 := RangeForm(s);
    var t := Range(s).value.1;
    AfterForm(t, " +");
    var u := After(t, " +").value;
    to, comma2, count2 := RangeForm(u);
    var v := Range(u).value.1;
    AfterForm(v, " @@");
    rest := After(v, " @@").value;
  }

  /** So the line numbers of a header that diff has written are read back. */
  lemma HeaderRoundTrip(from: nat, fromCount: nat, to: nat, toCount: nat, rest: string)
    ensures Header("@@ -" + (Decimal(from) + ([','] + (Decimal(fromCount) + (" +" +
      (Decimal(to) + ([','] + (Decimal(toCount) + (" @@" + rest)))))))))
      == Some((from, to))
  {
    HeaderRead(Decimal(from), [','], Decimal(fromCount), Decimal(to), [','], Decimal(toCount), rest);
    DecimalRead(from);
    DecimalRead(to);
  }

  // ----- one hunk -----

  datatype Side = Side(start: nat, touched: seq<nat>, untouched: seq<nat>)
  datatype Hunk = Hunk(fromLine: nat, toLine: nat, from: Side, to: Side, lines: seq<string>)

  /** An empty line has no first character, and a header may be malformed. */
  datatype Error = IndexError | MalformedHeader
  datatype Result<T> = Ok(value: T) | Err(error: Error)

  function NewHunk(header: (nat, nat)): Hunk {
    Hunk(header.0, header.1, Side(header.0, [], []), Side(header.1, [], []), [])
  }

  function Stripped(line: string): string {
    if line != "" && line[|line| - 1] == '\n' then Stripped(line[..|line| - 1]) else line
  }

  /** What rstrip leaves: the text up to the newlines at its end, and no more of them. */
  lemma {:induction false} StrippedIs(line: string) returns (k: nat)
    ensures k <= |line| && Stripped(line) == line[..k] && forall j :: k <= j < |line| ==> line[j] == '\n'
    ensures k > 0 ==> line[k - 1] != '\n'
  {
    k := |line|;
    if line != "" && line[|line| - 1] == '\n' {
      k := StrippedIs(line[..|line| - 1]);
    }
  }

  function Touch(side: Side, line: nat): Side {
    side.(touched := side.touched + [line])
  }

  function Pass(side: Side, line: nat): Side {
    side.(untouched := side.untouched + [line])
  }

  function Append(h: Hunk, line: string): Hunk
    requires line != ""
  {
    var lines := h.lines + [Stripped(line)];
    if line[0] == ' ' then
      Hunk(h.fromLine + 1, h.toLine + 1, Pass(h.from, h.fromLine), Pass(h.to, h.toLine), lines)
    else if line[0] == '-' then Hunk(h.fromLine + 1, h.toLine, Touch(h.from, h.fromLine), h.to, lines)
    else if line[0] == '+' then Hunk(h.fromLine, h.toLine + 1, h.from, Touch(h.to, h.toLine), lines)
    else h.(lines := lines)
  }

  predicate NoneEmpty(lines: seq<string>) {
    forall k :: 0 <= k < |lines| ==> lines[k] != ""
  }

  function HunkOf(header: (nat, nat), lines: seq<string>): Hunk
    requires NoneEmpty(lines)
  {
    if lines == [] then NewHunk(header)
    else Append(HunkOf(header, lines[..|lines| - 1]), lines[|lines| - 1])
  }

  // ----- what the numbers mean -----

  /** The lines of one side: those in common, and those marked as its own. */
  function SideOf(lines: seq<string>, mark: char): (side: seq<string>)
    requires NoneEmpty(lines)
    ensures NoneEmpty(side)
  {
    if lines == [] then []
    else
      var last := lines[|lines| - 1];
      SideOf(lines[..|lines| - 1], mark) + if last[0] == ' ' || last[0] == mark then [last] else []
  }

  /** The numbers, from `start` on, of the lines that begin with a character. */
  function Numbers(side: seq<string>, mark: char, start: nat): seq<nat>
    requires NoneEmpty(side)
  {
    if side == [] then []
    else
      var n := |side| - 1;
      Numbers(side[..n], mark, start) + if side[n][0] == mark then [start + n] else []
  }

  lemma NumbersPush(side: seq<string>, line: string, mark: char, start: nat)
    requires NoneEmpty(side) && line != ""
    ensures NoneEmpty(side + [line])
    ensures Numbers(side + [line], mark, start)
         == Numbers(side, mark, start) + if line[0] == mark then [start + |side|] else []
  {
    InitLast(side, line);
  }

  /** k is listed exactly if it is the number of a line that begins with the character. */
  lemma {:induction false} ListedWhen(side: seq<string>, mark: char, start: nat, k: nat)
    requires NoneEmpty(side)
    ensures k in Numbers(side, mark, start) <==>
      start <= k < start + |side| && (var line := side[k - start]; line != "" && line[0] == mark)
  {
    if side != [] {
      ListedWhen(side[..|side| - 1], mark, start, k);
    }
  }

  lemma {:induction false} ListedAscend(side: seq<string>, mark: char, start: nat, j: nat, k: nat)
    requires NoneEmpty(side) && j < k < |Numbers(side, mark, start)|
    ensures Numbers(side, mark, start)[j] < Numbers(side, mark, start)[k] < start + |side|
  {
    var n := |side| - 1;
    var before := Numbers(side[..n], mark, start);
    if k < |before| {
      ListedAscend(side[..n], mark, start, j, k);
    } else {
      ListedWhen(side[..n], mark, start, before[j]);
      assert before[j] in before;
    }
  }

  predicate Accounts(side: Side, next: nat, lines: seq<string>, mark: char)
    requires NoneEmpty(lines) && mark != ' '
  {
    var own := SideOf(lines, mark);
    && next == side.start + |own|
    && side.touched == Numbers(own, mark, side.start)
    && side.untouched == Numbers(own, ' ', side.start)
  }

  lemma SidePush(lines: seq<string>, line: string, mark: char)
    requires NoneEmpty(lines) && line != ""
    ensures NoneEmpty(lines + [line])
    ensures SideOf(lines + [line], mark)
         == SideOf(lines, mark) + if line[0] == ' ' || line[0] == mark then [line] else []
  {
    InitLast(lines, line);
  }

  lemma AccountsPush(side: Side, next: nat, lines: seq<string>, line: string, mark: char)
    requires NoneEmpty(lines) && line != "" && mark != ' ' && Accounts(side, next, lines, mark)
    ensures NoneEmpty(lines + [line])
    ensures line[0] == mark ==> Accounts(Touch(side, next), next + 1, lines + [line], mark)
    ensures line[0] == ' ' ==> Accounts(Pass(side, next), next + 1, lines + [line], mark)
    ensures line[0] != mark && line[0] != ' ' ==> Accounts(side, next, lines + [line], mark)
  {
    var own := SideOf(lines, mark);
    SidePush(lines, line, mark);
    if line[0] == mark || line[0] == ' ' {
      NumbersPush(own, line, mark, side.start);
      NumbersPush(own, line, ' ', side.start);
      ConcatEmpty(side.touched);
      ConcatEmpty(side.untouched);
    } else {
      ConcatEmpty(own);
    }
  }

  /**
   * After any lines: each side's numbers run on from its start over its own lines, and a line is
   * listed as touched exactly if it is marked as this side's, as untouched if it is in common.
   */
  lemma {:induction false} HunkAccounts(header: (nat, nat), lines: seq<string>)
    requires NoneEmpty(lines)
    ensures var h := HunkOf(header, lines);
      && h.from.start == header.0 && h.to.start == header.1 && |h.lines| == |lines|
      && Accounts(h.from, h.fromLine, lines, '-') && Accounts(h.to, h.toLine, lines, '+')
  {
    if lines != [] {
      var n := |lines| - 1;
      var h := HunkOf(header, lines[..n]);
      HunkAccounts(header, lines[..n]);
      assert lines == lines[..n] + [lines[n]];
      AccountsPush(h.from, h.fromLine, lines[..n], lines[n], '-');
      AccountsPush(h.to, h.toLine, lines[..n], lines[n], '+');
    }
  }

  /** The hunk stores every line of its body, in order, without the newlines at its end. */
  lemma {:induction false} LinesStored(header: (nat, nat), lines: seq<string>)
    requires NoneEmpty(lines)
    ensures var h := HunkOf(header, lines);
      |h.lines| == |lines| && forall k :: 0 <= k < |lines| ==> h.lines[k] == Stripped(lines[k])
  {
    if lines != [] {
      LinesStored(header, lines[..|lines| - 1]);
    }
  }

  /** `__len__` of a side. */
  function SideLength(side: Side): nat {
    |side.touched| + |side.untouched|
  }

  lemma {:induction false} NumbersSplit(own: seq<string>, mark: char, start: nat)
    requires NoneEmpty(own) && mark != ' '
    requires forall line :: line in own && line != "" ==> line[0] == mark || line[0] == ' '
    ensures |Numbers(own, mark, start)| + |Numbers(own, ' ', start)| == |own|
  {
    if own != [] {
      NumbersSplit(own[..|own| - 1], mark, start);
    }
  }

  lemma {:induction false} OwnMarks(lines: seq<string>, mark: char)
    requires NoneEmpty(lines)
    ensures forall line :: line in SideOf(lines, mark) && line != "" ==> line[0] == mark || line[0] == ' '
  {
    if lines != [] {
      OwnMarks(lines[..|lines| - 1], mark);
    }
  }

  /** The length of a side is the number of its lines. */
  lemma SideLengths(header: (nat, nat), lines: seq<string>)
    requires NoneEmpty(lines)
    ensures SideLength(HunkOf(header, lines).from) == |SideOf(lines, '-')|
    ensures SideLength(HunkOf(header, lines).to) == |SideOf(lines, '+')|
  {
    HunkAccounts(header, lines);
    OwnMarks(lines, '-');
    OwnMarks(lines, '+');
    NumbersSplit(SideOf(lines, '-'), '-', header.0);
    NumbersSplit(SideOf(lines, '+'), '+', header.1);
  }

  // ----- a whole diff -----

  predicate IsHeader(line: string) {
    "@@" <= line
  }

  /** A hunk's header and the lines up to the next one; lines before the first are skipped. */
  datatype Section = Section(header: string, body: seq<string>)

  function Sections(diff: seq<string>): seq<Section> {
    if diff == [] then []
    else
      var line, before := diff[|diff| - 1], Sections(diff[..|diff| - 1]);
      var last := |before| - 1;
      if IsHeader(line) then before + [Section(line, [])]
      else if before == [] then []
      else before[..last] + [Section(before[last].header, before[last].body + [line])]
  }

  /** The lines of the sections, headers included, in order. */
  function Flat(sections: seq<Section>): seq<string> {
    if sections == [] then []
    else
      var last := sections[|sections| - 1];
      Flat(sections[..|sections| - 1]) + [last.header] + last.body
  }

  predicate NoHeader(lines: seq<string>) {
    forall k :: 0 <= k < |lines| ==> !("@@" <= lines[k])
  }

  /** The lines before the first header. */
  function Skipped(diff: seq<string>): seq<string> {
    if diff == [] then []
    else
      var n := |diff| - 1;
      Skipped(diff[..n]) + if Sections(diff[..n]) == [] && !IsHeader(diff[n]) then [diff[n]] else []
  }

  lemma {:induction false} SectionsCover(diff: seq<string>)
    ensures diff == Skipped(diff) + Flat(Sections(diff))
  {
    if diff != [] {
      var n := |diff| - 1;
      var before, skipped := Sections(diff[..n]), Skipped(diff[..n]);
      SectionsCover(diff[..n]);
      assert diff == diff[..n] + [diff[n]];
      if IsHeader(diff[n]) {
        FlatNew(before, diff[n]);
        Assoc(skipped, Flat(before), [diff[n]]);
        ConcatEmpty(skipped);
      } else if before == [] {
        ConcatEmpty(skipped);
        ConcatEmpty(diff);
      } else {
        FlatMore(before, diff[n]);
        Assoc(skipped, Flat(before), [diff[n]]);
        ConcatEmpty(skipped);
      }
    }
  }

  predicate IsSection(s: Section) {
    "@@" <= s.header && NoHeader(s.body)
  }

  lemma SectionPush(s: Section, line: string)
    requires IsSection(s) && !IsHeader(line)
    ensures IsSection(Section(s.header, s.body + [line]))
  {
  }

  lemma {:induction false} EachIsSection(diff: seq<string>)
    ensures forall k :: 0 <= k < |Sections(diff)| ==> IsSection(Sections(diff)[k])
  {
    if diff != [] {
      var n := |diff| - 1;
      var before := Sections(diff[..n]);
      EachIsSection(diff[..n]);
      if !IsHeader(diff[n]) && before != [] {
        SectionPush(before[|before| - 1], diff[n]);
      }
    }
  }

  lemma {:induction false} SkippedHasNone(diff: seq<string>)
    ensures NoHeader(Skipped(diff))
  {
    if diff != [] {
      SkippedHasNone(diff[..|diff| - 1]);
    }
  }

  /**
   * The sections are the whole diff but for the lines before the first header, cut at every line
   * that begins with two at signs and nowhere else.
   */
  lemma SectionsAre(diff: seq<string>)
    ensures diff == Skipped(diff) + Flat(Sections(diff)) && NoHeader(Skipped(diff))
    ensures forall k :: 0 <= k < |Sections(diff)| ==> IsSection(Sections(diff)[k])
  {
    SectionsCover(diff);
    EachIsSection(diff);
    SkippedHasNone(diff);
  }

  lemma FlatNew(sections: seq<Section>, header: string)
    ensures Flat(sections + [Section(header, [])]) == Flat(sections) + [header]
  {
    InitLast(sections, Section(header, []));
    ConcatEmpty(Flat(sections) + [header]);
  }

  lemma FlatMore(sections: seq<Section>, line: string)
    requires sections != []
    ensures var last := |sections| - 1;
      Flat(sections[..last] + [Section(sections[last].header, sections[last].body + [line])]) == Flat(sections) + [line]
  {
    var last := |sections| - 1;
    InitLast(sections[..last], Section(sections[last].header, sections[last].body + [line]));
    Assoc(Flat(sections[..last]) + [sections[last].header], sections[last].body, [line]);
  }

  predicate WellFormed(s: Section) {
    Header(s.header).Some? && NoneEmpty(s.body)
  }

  predicate AllWellFormed(sections: seq<Section>) {
    forall s :: s in sections ==> WellFormed(s)
  }

  function HunkOfSection(s: Section): Hunk
    requires WellFormed(s)
  {
    HunkOf(Header(s.header).value, s.body)
  }

  function HunksOf(sections: seq<Section>): (hunks: seq<Hunk>)
    requires AllWellFormed(sections)
    ensures |hunks| == |sections|
  {
    if sections == [] then []
    else HunksOf(sections[..|sections| - 1]) + [HunkOfSection(sections[|sections| - 1])]
  }

  lemma SectionsPush(diff: seq<string>, line: string)
    ensures var before := Sections(diff);
      Sections(diff + [line]) ==
        if IsHeader(line) then before + [Section(line, [])]
        else if before == [] then []
        else before[..|before| - 1] + [Section(before[|before| - 1].header, before[|before| - 1].body + [line])]
  {
    InitLast(diff, line);
  }

  /** What is wrong with the first ill-formed section. */
  function FirstError(sections: seq<Section>): Error
    requires !AllWellFormed(sections)
  {
    var n := |sections| - 1;
    if !AllWellFormed(sections[..n]) then FirstError(sections[..n])
    else if Header(sections[n].header) == None then MalformedHeader
    else IndexError
  }

  lemma AllButLast(sections: seq<Section>)
    requires sections != []
    ensures AllWellFormed(sections) <==>
      AllWellFormed(sections[..|sections| - 1]) && WellFormed(sections[|sections| - 1])
  {
    assert sections == sections[..|sections| - 1] + [sections[|sections| - 1]];
  }

  lemma LongerStaysBad(s: Section, line: string)
    requires !WellFormed(s)
    ensures !WellFormed(Section(s.header, s.body + [line]))
  {
    if Header(s.header).Some? {
      var k :| 0 <= k < |s.body| && s.body[k] == "";
      assert (s.body + [line])[k] == "";
    }
  }

  /** Of two lists that differ in how the bad last section goes on, the first error is the same. */
  lemma SameFirstError(before: seq<Section>, s: Section, t: Section)
    requires !AllWellFormed(before + [s]) && s.header == t.header && (!WellFormed(s) ==> !WellFormed(t))
    ensures !AllWellFormed(before + [t]) && FirstError(before + [t]) == FirstError(before + [s])
  {
    InitLast(before, s);
    InitLast(before, t);
    AllButLast(before + [s]);
    AllButLast(before + [t]);
  }

  lemma ErrorStep(diff: seq<string>, line: string)
    requires !AllWellFormed(Sections(diff))
    ensures !AllWellFormed(Sections(diff + [line]))
    ensures FirstError(Sections(diff + [line])) == FirstError(Sections(diff))
  {
    var before := Sections(diff);
    var last := |before| - 1;
    SectionsPush(diff, line);
    if IsHeader(line) {
      InitLast(before, Section(line, []));
      AllButLast(before + [Section(line, [])]);
    } else {
      var longer := Section(before[last].header, before[last].body + [line]);
      assert before == before[..last] + [before[last]];
      if !WellFormed(before[last]) {
        LongerStaysBad(before[last], line);
      }
      SameFirstError(before[..last], before[last], longer);
    }
  }

  /** The first error stays the first. */
  lemma {:induction false} ErrorStays(diff: seq<string>, more: seq<string>)
    requires !AllWellFormed(Sections(diff))
    ensures !AllWellFormed(Sections(diff + more))
    ensures FirstError(Sections(diff + more)) == FirstError(Sections(diff))
  {
    if more == [] {
      ConcatEmpty(diff);
    } else {
      var n := |more| - 1;
      assert more == more[..n] + [more[n]];
      Assoc(diff, more[..n], [more[n]]);
      ErrorStays(diff, more[..n]);
      ErrorStep(diff + more[..n], more[n]);
    }
  }

  /** A header begins a section, ... */
  lemma HeaderLine(diff: seq<string>, line: string)
    requires AllWellFormed(Sections(diff)) && IsHeader(line)
    ensures Sections(diff + [line]) == Sections(diff) + [Section(line, [])]
    ensures if Header(line).Some? then AllWellFormed(Sections(diff + [line]))
      else !AllWellFormed(Sections(diff + [line])) && FirstError(Sections(diff + [line])) == MalformedHeader
  {
    SectionsPush(diff, line);
    InitLast(Sections(diff), Section(line, []));
    AllButLast(Sections(diff + [line]));
  }

  /** ... and any other line is appended to the last one. */
  lemma BodyLine(diff: seq<string>, line: string)
    requires AllWellFormed(Sections(diff)) && Sections(diff) != [] && !IsHeader(line)
    ensures var before, after := Sections(diff), Sections(diff + [line]);
      var last := |before| - 1;
      && |after| == |before| && after[..last] == before[..last]
      && after[last] == Section(before[last].header, before[last].body + [line])
      && if line != "" then
           AllWellFormed(after) && HunkOfSection(after[last]) == Append(HunkOfSection(before[last]), line)
         else !AllWellFormed(after) && FirstError(after) == IndexError
  {
    var before := Sections(diff);
    var last := |before| - 1;
    var longer := Section(before[last].header, before[last].body + [line]);
    SectionsPush(diff, line);
    InitLast(before[..last], longer);
    AllButLast(before);
    AllButLast(Sections(diff + [line]));
    InitLast(before[last].body, line);
    if line == "" {
      assert longer.body[|before[last].body|] == "";
    }
  }

  // ----- line by line -----

  /** The hunks that are complete, and the one that is not. */
  datatype Parsing = Parsing(done: seq<Hunk>, current: Option<Hunk>)

  function AllHunks(p: Parsing): seq<Hunk> {
    p.done + if p.current.Some? then [p.current.value] else []
  }

  function ParseLine(p: Parsing, line: string): Result<Parsing> {
    if IsHeader(line) then
      match Header(line)
      case Some(header) => Ok(Parsing(AllHunks(p), Some(NewHunk(header))))
      case None => Err(MalformedHeader)
    else if p.current == None then Ok(p)
    else if line == "" then Err(IndexError)
    else Ok(p.(current := Some(Append(p.current.value, line))))
  }

  /** The parsing after the lines of a diff. */
  predicate Parsed(p: Parsing, diff: seq<string>) {
    && AllWellFormed(Sections(diff)) && AllHunks(p) == HunksOf(Sections(diff))
    && (p.current == None ==> p.done == [])
  }

  lemma HunksPush(sections: seq<Section>, s: Section)
    requires AllWellFormed(sections) && WellFormed(s)
    ensures AllWellFormed(sections + [s]) && HunksOf(sections + [s]) == HunksOf(sections) + [HunkOfSection(s)]
  {
    InitLast(sections, s);
    AllButLast(sections + [s]);
  }

  lemma LastHunk(p: Parsing, diff: seq<string>)
    requires Parsed(p, diff) && p.current.Some?
    ensures var sections := Sections(diff);
      && sections != [] && AllWellFormed(sections[..|sections| - 1]) && WellFormed(sections[|sections| - 1])
      && p.done == HunksOf(sections[..|sections| - 1])
      && p.current.value == HunkOfSection(sections[|sections| - 1])
  {
    var sections := Sections(diff);
    assert |HunksOf(sections)| == |p.done| + 1;
    AllButLast(sections);
    InitLast(p.done, p.current.value);
    InitLast(HunksOf(sections[..|sections| - 1]), HunkOfSection(sections[|sections| - 1]));
  }

  lemma ParsesBody(p: Parsing, diff: seq<string>, line: string)
    requires Parsed(p, diff) && p.current.Some? && !IsHeader(line) && line != ""
    ensures Parsed(p.(current := Some(Append(p.current.value, line))), diff + [line])
  {
    var before, after := Sections(diff), Sections(diff + [line]);
    var last := |before| - 1;
    LastHunk(p, diff);
    BodyLine(diff, line);
    AllButLast(after);
    HunksPush(after[..last], after[last]);
    assert after == after[..last] + [after[last]];
  }

  lemma ParsesLine(p: Parsing, diff: seq<string>, line: string)
    requires Parsed(p, diff)
    ensures match ParseLine(p, line)
      case Ok(q) => Parsed(q, diff + [line])
      case Err(e) => !AllWellFormed(Sections(diff + [line])) && FirstError(Sections(diff + [line])) == e
  {
    if IsHeader(line) {
      HeaderLine(diff, line);
      if Header(line).Some? {
        HunksPush(Sections(diff), Section(line, []));
      }
    } else if p.current == None {
      SectionsPush(diff, line);
    } else {
      LastHunk(p, diff);
      BodyLine(diff, line);
      if line != "" {
        ParsesBody(p, diff, line);
      }
    }
  }
}
