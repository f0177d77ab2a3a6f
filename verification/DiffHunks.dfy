/** DiffHunk and parse_diff as they run. */
module DiffHunks {
  import opened Wrappers
  import opened Seqs
  import opened Diffs

  class DiffHunk {
    var fromLine: nat
    var toLine: nat
    var from: Side
    var to: Side
    var lines: seq<string>

    ghost function Value(): Hunk
      reads this
    {
      Hunk(fromLine, toLine, from, to, lines)
    }

    constructor (header: (nat, nat))
      ensures Value() == NewHunk(header)
    {
      fromLine, toLine := header.0, header.1;
      from, to := Side(header.0, [], []), Side(header.1, [], []);
      lines := [];
    }

    method AppendLine(line: string) returns (r: Result<()>)
      modifies this
      ensures if line == "" then r == Err(IndexError) && Value() == old(Value())
        else r == Ok(()) && Value() == Append(old(Value()), line)
    {
      if line == "" {
        return Err(IndexError);
      }
      if line[0] == ' ' {
        from := from.(untouched := from.untouched + [fromLine]);
        fromLine := fromLine + 1;
        to := to.(untouched := to.untouched + [toLine]);
        toLine := toLine + 1;
      } else if line[0] == '-' {
        from := from.(touched := from.touched + [fromLine]);
        fromLine := fromLine + 1;
      } else if line[0] == '+' {
        to := to.(touched := to.touched + [toLine]);
        toLine := toLine + 1;
      }
      lines := lines + [Stripped(line)];
      r := Ok(());
    }

    /** Whether one of the given lines is a line that the hunk takes away. */
    method Intersects(numbers: seq<nat>) returns (found: bool)
      ensures found <==> exists n :: n in numbers && n in from.touched
    {
      found := false;
      for i := 0 to |numbers|
        invariant !found && forall k :: 0 <= k < i ==> numbers[k] !in from.touched
      {
        if numbers[i] in from.touched {
          return true;
        }
      }
    }
  }

  ghost predicate AreHunks(hunks: seq<DiffHunk>, values: seq<Hunk>)
    reads hunks
  {
    |hunks| == |values| && forall k :: 0 <= k < |hunks| ==> hunks[k].Value() == values[k]
  }

  /** The finished hunks and the one that still grows. */
  ghost predicate Shows(hunks: seq<DiffHunk>, hunk: DiffHunk?, p: Parsing)
    reads hunks, hunk
  {
    && AreHunks(hunks, p.done) && hunk !in hunks
    && if hunk == null then p.current == None else p.current == Some(hunk.Value())
  }

  /** The body of the loop: a header begins a hunk, any other line goes to the one there is. */
  method TakeLine(hunks: seq<DiffHunk>, hunk: DiffHunk?, line: string, ghost p: Parsing)
    returns (done: seq<DiffHunk>, current: DiffHunk?, error: Option<Error>)
    requires Shows(hunks, hunk, p)
    modifies hunk
    ensures match ParseLine(p, line)
      case Ok(q) => error == None && Shows(done, current, q) && (current == hunk || fresh(current))
      case Err(e) => error == Some(e)
  {
    done, current, error := hunks, hunk, None;
    if IsHeader(line) {
      if hunk != null {
        done := hunks + [hunk];
      }
      var header := Header(line);
      if header == None {
        return done, current, Some(MalformedHeader);
      }
      current := new DiffHunk(header.value);
    } else if hunk != null {
      var ok := hunk.AppendLine(line);
      if ok.Err? {
        error := Some(ok.error);
      }
    }
  }

  /** One hunk for each section of the diff, or the first error. */
  method ParseDiff(diff: seq<string>) returns (r: Result<seq<DiffHunk>>)
    ensures match r
      case Ok(hunks) => AllWellFormed(Sections(diff)) && AreHunks(hunks, HunksOf(Sections(diff)))
      case Err(e) => !AllWellFormed(Sections(diff)) && e == FirstError(Sections(diff))
  {
    var hunks: seq<DiffHunk> := [];
    var hunk: DiffHunk? := null;
    var rest := diff;
    ghost var read: seq<string>, p := [], Parsing([], None);
    while rest != []
      invariant diff == read + rest && Parsed(p, read)
      invariant Shows(hunks, hunk, p) && (hunk == null || fresh(hunk))
      decreases |rest|
    {
      var line := rest[0];
      Regrouped(read, rest);
      ParsesLine(p, read, line);
      rest := rest[1..];
      read := read + [line];
      var error;
      hunks, hunk, error := TakeLine(hunks, hunk, line, p);
      if error.Some? {
        ErrorStays(read, rest);
        return Err(error.value);
      }
      p := ParseLine(p, line).value;
    }
    ConcatEmpty(read);
    if hunk != null {
      hunks := hunks + [hunk];
    }
    r := Ok(hunks);
  }

  lemma Regrouped(read: seq<string>, rest: seq<string>)
    requires rest != []
    ensures read + rest == (read + [rest[0]]) + rest[1..]
  {
    assert rest == [rest[0]] + rest[1..];
  }
}
