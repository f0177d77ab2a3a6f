/** KeyValueParser: registering options, and the loop that parses an argument. */
module KeyValueParsers {
  import opened Wrappers
  import opened Seqs
  import opened KeyValue

  class KeyValueParser {
    var options: Registry   // optionsMap_

    ghost predicate Valid()
      reads this
    {
      Typed(options)
    }

    constructor ()
      ensures Valid() && options == map[]
    {
      options := map[];
    }

    /** Register an option; it needs a name that is new, a help text, and a type if it takes a value. */
    method AddOption(name: Option<string>, kind: OptionType, help: Option<string>, argument: ArgumentKind)
      returns (ok: bool)
      requires Valid()
      modifies this
      ensures Valid()
      ensures ok <==>
        && name.Some? && name.value !in old(options)
        && help.Some? && help.value != ""
        && (argument == ArgumentNone || kind != OptionNone)
      ensures options == if ok then old(options)[name.value := KeyOption(kind, argument)] else old(options)
    {
      if name == None {
        return false;
      }
      if help == None || help.value == "" {
        return false;
      }
      if argument != ArgumentNone && kind == OptionNone {
        return false;
      }
      if name.value in options {
        return false;
      }
      options := options[name.value := KeyOption(kind, argument)];
      ok := true;
    }

    /** parse: piece by piece, up to the first error.  No text given for a key is dropped. */
    method Parse(arguments: string, strtoul: Strtoul) returns (r: Options)
      requires Valid()
      ensures r == Meaning(options, strtoul, Pieces(arguments))
      ensures forall key :: r.valid && key in r.values && r.values[key] == ValueNone ==>
        LastText(Pieces(arguments), key) == ""
    {
      r := Options(map[], true);
      var rest := arguments;
      ghost var read := "";
      NothingMeant(options, strtoul);
      while rest != ""
        invariant arguments == read + rest && (read == "" || read[|read| - 1] == ',' || rest == "")
        invariant r.valid && Meaning(options, strtoul, Pieces(read)) == r
        decreases |rest|
      {
        var piece, comma;
        ghost var before := r.values;
        piece, comma, rest := NextPair(rest);
        Regrouped(read, piece, comma, rest);
        PieceRead(options, strtoul, read, piece, comma, rest, before);
        r := ParsePair(piece, r.values, strtoul);
        if !r.valid {
          return;
        }
        read := read + piece + comma;
      }
      ConcatEmpty(read);
      forall key | key in r.values && r.values[key] == ValueNone ensures LastText(Pieces(arguments), key) == "" {
        NoTextDropped(options, strtoul, Pieces(arguments), key);
      }
    }

    /** The body of the loop: what one piece adds to the values, or what is wrong with it. */
    method ParsePair(piece: string, values: map<string, OptionValue>, strtoul: Strtoul) returns (r: Options)
      ensures r == Apply(options, strtoul, values, piece)
    {
      if piece == "" {
        return Options(values, true);
      }
      var separator := Find(piece, '=', 0);
      var key, value := piece[..separator], "";
      if separator < |piece| {
        value := piece[separator + 1..];
      }
      // Without a key there is nothing to store.
      if key == "" {
        return Options(values, true);
      }
      if key !in options {
        return Options(values, false);
      }
      var option := options[key];
      if value == "" && option.argument == ArgumentRequired {
        return Options(values, false);
      } else if value != "" && option.argument == ArgumentNone {
        return Options(values, false);
      }
      var parsed := ParseValue(option.kind, value, strtoul);
      if parsed == None {
        return Options(values, false);
      }
      r := Options(values[key := parsed.value], true);
    }
  }

  /** The head of the loop: the text up to the next comma, that comma, and what is left. */
  method NextPair(arguments: string) returns (piece: string, comma: string, rest: string)
    requires arguments != ""
    ensures arguments == piece + comma + rest && ',' !in piece && |rest| < |arguments|
    ensures comma == [','] || (comma == "" && rest == "")
  {
    var at := Find(arguments, ',', 0);
    piece := arguments[..at];
    if at == |arguments| {
      comma, rest := "", "";
    } else {
      comma, rest := [','], arguments[at + 1..];
    }
  }

  lemma Regrouped(a: string, b: string, c: string, d: string)
    ensures a + (b + c + d) == (a + b + c) + d
  {
  }
}
