/**
 * The key=value option lists of the cam tool: the parser as it walks along its argument, and what
 * an argument means: comma-separated pieces, each split at its first equals sign.
 */
module KeyValue {
  import opened Machine
  import opened Wrappers
  import opened Seqs
  import opened Texts

  datatype ArgumentKind = ArgumentNone | ArgumentRequired | ArgumentOptional
  datatype OptionType = OptionNone | OptionInteger | OptionString

  /** A registered option, and a parsed value. */
  datatype KeyOption = KeyOption(kind: OptionType, argument: ArgumentKind)
  datatype OptionValue = ValueNone | ValueInteger(i: I32) | ValueString(s: string)

  /** What a parse returns; `valid` is false after an error. */
  datatype Options = Options(values: map<string, OptionValue>, valid: bool)

  type Registry = map<string, KeyOption>

  /** An option that takes a value has a type for it. */
  predicate Typed(known: Registry) {
    forall k :: k in known && known[k].kind == OptionNone ==> known[k].argument == ArgumentNone
  }

  /** strtoul in base 0: the number read, and how many characters were read. */
  type Strtoul = string -> (U64, nat)

  // ----- one value -----

  /** parseValue, for an option that is not an array. */
  function ParseValue(kind: OptionType, arg: string, strtoul: Strtoul): Option<OptionValue> {
    match kind
    case OptionNone => Some(ValueNone)
    case OptionInteger =>
      var (n, end) := strtoul(arg);
      if end < |arg| then None else Some(ValueInteger(ToI32(ToU32(n))))
    case OptionString => Some(ValueString(arg))
  }

  /** Whether a value may, or must, be given. */
  predicate Permits(argument: ArgumentKind, value: string) {
    if value == "" then argument != ArgumentRequired else argument != ArgumentNone
  }

  /** The value that a key and its text stand for, if they are accepted. */
  function Accepted(known: Registry, key: string, value: string, strtoul: Strtoul): Option<OptionValue> {
    if key in known && Permits(known[key].argument, value) then ParseValue(known[key].kind, value, strtoul)
    else None
  }

  /**
   * Text is accepted for a key exactly if the option is registered, takes a value when there is text
   * and does not insist on one when there is none, and, for an integer, strtoul reads all of it.
   * The number is then what strtoul read, as the low 32 bits say it.
   */
  lemma AcceptedWhen(known: Registry, key: string, value: string, strtoul: Strtoul)
    ensures Accepted(known, key, value, strtoul).Some? <==>
      && key in known
      && (value == "" ==> known[key].argument != ArgumentRequired)
      && (value != "" ==> known[key].argument != ArgumentNone)
      && (known[key].kind == OptionInteger ==> strtoul(value).1 >= |value|)
    ensures Accepted(known, key, value, strtoul).Some? ==>
      var v := Accepted(known, key, value, strtoul).value;
      match known[key].kind
      case OptionNone => v == ValueNone
      case OptionString => v == ValueString(value)
      case OptionInteger => v.ValueInteger? && (strtoul(value).0 - v.i) % 0x1_0000_0000 == 0
  {
  }

  // ----- what an argument means -----

  /** The pieces between commas. */
  function Pieces(s: string): seq<string> {
    Split(s, ',')
  }

  /** The position of the first c, or the length. */
  function Find(s: string, c: char, from: nat): (r: nat)
    requires from <= |s|
    ensures from <= r <= |s| && (r < |s| ==> s[r] == c) && forall j :: from <= j < r ==> s[j] != c
    decreases |s| - from
  {
    if from == |s| || s[from] == c then from else Find(s, c, from + 1)
  }

  function KeyOf(piece: string): string {
    piece[..Find(piece, '=', 0)]
  }

  function ValueOf(piece: string): string {
    var e := Find(piece, '=', 0);
    if e < |piece| then piece[e + 1..] else ""
  }

  /** A piece without a key says nothing; an unacceptable one makes the whole invalid. */
  function Apply(known: Registry, strtoul: Strtoul, values: map<string, OptionValue>, piece: string): Options {
    if KeyOf(piece) == "" then Options(values, true)
    else
      match Accepted(known, KeyOf(piece), ValueOf(piece), strtoul)
      case Some(v) => Options(values[KeyOf(piece) := v], true)
      case None => Options(values, false)
  }

  /** The pieces in order, up to the first unacceptable one. */
  function Meaning(known: Registry, strtoul: Strtoul, pieces: seq<string>): Options {
    if pieces == [] then Options(map[], true)
    else
      var n := |pieces| - 1;
      var r := Meaning(known, strtoul, pieces[..n]);
      if r.valid then Apply(known, strtoul, r.values, pieces[n]) else r
  }

  // ----- pieces -----

  /** One piece more: at the start, or after a comma. */
  lemma NextPiece(a: string, piece: string)
    requires (a == "" || a[|a| - 1] == ',') && ',' !in piece
    ensures Pieces(a + piece) == Pieces(a)[..|Pieces(a)| - 1] + [piece] && Pieces(a)[|Pieces(a)| - 1] == ""
  {
    SplitOne(piece, ',');
    if a == "" {
      ConcatEmpty(piece);
    } else {
      var init := a[..|a| - 1];
      assert a == init + [','];
      SplitConcat(init, piece, ',');
      SplitPush(init, ',', ',');
    }
  }

  // ----- meaning -----

  lemma MeaningPush(known: Registry, strtoul: Strtoul, pieces: seq<string>, p: string)
    ensures Meaning(known, strtoul, pieces + [p]) ==
      var r := Meaning(known, strtoul, pieces);
      if r.valid then Apply(known, strtoul, r.values, p) else r
  {
    InitLast(pieces, p);
  }

  /** After an error the rest does not matter. */
  lemma {:induction false} ErrorStops(known: Registry, strtoul: Strtoul, pieces: seq<string>, more: seq<string>)
    requires !Meaning(known, strtoul, pieces).valid
    ensures Meaning(known, strtoul, pieces + more) == Meaning(known, strtoul, pieces)
  {
    if more == [] {
      ConcatEmpty(pieces);
    } else {
      var n := |more| - 1;
      assert more == more[..n] + [more[n]];
      Assoc(pieces, more[..n], [more[n]]);
      ErrorStops(known, strtoul, pieces, more[..n]);
      MeaningPush(known, strtoul, pieces + more[..n], more[n]);
    }
  }

  lemma ReadOn(
      known: Registry, strtoul: Strtoul, read: string, piece: string, values: map<string, OptionValue>)
    requires (read == "" || read[|read| - 1] == ',') && ',' !in piece
    requires Meaning(known, strtoul, Pieces(read)) == Options(values, true)
    ensures Meaning(known, strtoul, Pieces(read + piece)) == Apply(known, strtoul, values, piece)
  {
    var before := Pieces(read)[..|Pieces(read)| - 1];
    NextPiece(read, piece);
    assert Pieces(read) == before + [""] && KeyOf("") == "";
    MeaningPush(known, strtoul, before, "");
    MeaningPush(known, strtoul, before, piece);
  }

  lemma ThenComma(known: Registry, strtoul: Strtoul, read: string)
    ensures Meaning(known, strtoul, Pieces(read + [','])) == Meaning(known, strtoul, Pieces(read))
  {
    SplitPush(read, ',', ',');
    assert KeyOf("") == "";
    MeaningPush(known, strtoul, Pieces(read), "");
  }

  lemma ThenMore(known: Registry, strtoul: Strtoul, read: string, more: string)
    requires !Meaning(known, strtoul, Pieces(read)).valid
    ensures Meaning(known, strtoul, Pieces(read + [','] + more)) == Meaning(known, strtoul, Pieces(read))
  {
    SplitConcat(read, more, ',');
    ErrorStops(known, strtoul, Pieces(read), Pieces(more));
  }

  /** One piece more has been read, with the comma after it if there is one; `more` is still to come. */
  lemma PieceRead(
      known: Registry, strtoul: Strtoul, read: string, piece: string, comma: string, more: string,
      values: map<string, OptionValue>)
    requires (read == "" || read[|read| - 1] == ',') && ',' !in piece
    requires comma == [','] || (comma == "" && more == "")
    requires Meaning(known, strtoul, Pieces(read)) == Options(values, true)
    ensures var r := Apply(known, strtoul, values, piece);
      if r.valid then Meaning(known, strtoul, Pieces(read + piece + comma)) == r
      else Meaning(known, strtoul, Pieces(read + piece + comma + more)) == r
  {
    ReadOn(known, strtoul, read, piece, values);
    if comma == "" {
      ConcatEmpty(read + piece);
    } else {
      ThenComma(known, strtoul, read + piece);
      if !Apply(known, strtoul, values, piece).valid {
        ThenMore(known, strtoul, read + piece, more);
      }
    }
  }

  function WithKeys(pieces: seq<string>): seq<string> {
    if pieces == [] then []
    else
      var n := |pieces| - 1;
      WithKeys(pieces[..n]) + if KeyOf(pieces[n]) == "" then [] else [pieces[n]]
  }

  /** Pieces without a key, the empty ones among them, are as good as not there. */
  lemma {:induction false} KeylessSayNothing(known: Registry, strtoul: Strtoul, pieces: seq<string>)
    ensures Meaning(known, strtoul, pieces) == Meaning(known, strtoul, WithKeys(pieces))
  {
    if pieces != [] {
      var n := |pieces| - 1;
      KeylessSayNothing(known, strtoul, pieces[..n]);
      if KeyOf(pieces[n]) == "" {
        ConcatEmpty(WithKeys(pieces[..n]));
      } else {
        MeaningPush(known, strtoul, WithKeys(pieces[..n]), pieces[n]);
      }
    }
  }

  lemma {:induction false} WithKeysConcat(a: seq<string>, b: seq<string>)
    ensures WithKeys(a + b) == WithKeys(a) + WithKeys(b)
  {
    if b == [] {
      ConcatEmpty(a);
      ConcatEmpty(WithKeys(a));
    } else {
      var n := |b| - 1;
      var last := if KeyOf(b[n]) == "" then [] else [b[n]];
      assert b == b[..n] + [b[n]];
      Assoc(a, b[..n], [b[n]]);
      WithKeysConcat(a, b[..n]);
      InitLast(a + b[..n], b[n]);
      Assoc(WithKeys(a), WithKeys(b[..n]), last);
    }
  }

  /** A comma at either end, or beside another one, changes nothing. */
  lemma ExtraCommas(known: Registry, strtoul: Strtoul, a: string, b: string)
    ensures Meaning(known, strtoul, Pieces([','] + a)) == Meaning(known, strtoul, Pieces(a))
    ensures Meaning(known, strtoul, Pieces(a + [','])) == Meaning(known, strtoul, Pieces(a))
    ensures Meaning(known, strtoul, Pieces(a + [','] + [','] + b)) == Meaning(known, strtoul, Pieces(a + [','] + b))
  {
    var none: seq<string> := [""];
    assert KeyOf("") == "" && WithKeys(none) == WithKeys([]) + [];
    SplitConcat("", a, ',');
    assert "" + [','] + a == [','] + a;
    WithKeysConcat(none, Pieces(a));
    SplitPush(a, ',', ',');
    WithKeysConcat(Pieces(a), none);
    SplitConcat(a + [','], b, ',');
    SplitConcat(a, b, ',');
    WithKeysConcat(Pieces(a) + none, Pieces(b));
    WithKeysConcat(Pieces(a), Pieces(b));
    ConcatEmpty(WithKeys(Pieces(a)));
    ConcatEmpty(WithKeys(Pieces(a)) + WithKeys(Pieces(b)));
    KeylessSayNothing(known, strtoul, Pieces([','] + a));
    KeylessSayNothing(known, strtoul, Pieces(a));
    KeylessSayNothing(known, strtoul, Pieces(a + [',']));
    KeylessSayNothing(known, strtoul, Pieces(a + [','] + [','] + b));
    KeylessSayNothing(known, strtoul, Pieces(a + [','] + b));
  }

  // ----- what comes out -----

  predicate Acceptable(known: Registry, strtoul: Strtoul, piece: string) {
    KeyOf(piece) == "" || Accepted(known, KeyOf(piece), ValueOf(piece), strtoul).Some?
  }

  /** The last piece with the key. */
  function LastOf(pieces: seq<string>, key: string): Option<string> {
    if pieces == [] then None
    else
      var n := |pieces| - 1;
      if KeyOf(pieces[n]) == key then Some(pieces[n]) else LastOf(pieces[..n], key)
  }

  function Lookup(values: map<string, OptionValue>, key: string): Option<OptionValue> {
    if key in values then Some(values[key]) else None
  }

  /** It is valid exactly when each piece is acceptable. */
  lemma {:induction false} ValidWhen(known: Registry, strtoul: Strtoul, pieces: seq<string>)
    ensures Meaning(known, strtoul, pieces).valid <==> forall p :: p in pieces ==> Acceptable(known, strtoul, p)
  {
    if pieces != [] {
      var n := |pieces| - 1;
      var r := Meaning(known, strtoul, pieces[..n]);
      assert pieces == pieces[..n] + [pieces[n]];
      ValidWhen(known, strtoul, pieces[..n]);
      assert Apply(known, strtoul, r.values, pieces[n]).valid <==> Acceptable(known, strtoul, pieces[n]);
      if r.valid && Acceptable(known, strtoul, pieces[n]) {
        forall p | p in pieces ensures Acceptable(known, strtoul, p) {
          assert p in pieces[..n] || p == pieces[n];
        }
      }
    }
  }

  /** Then the last piece of each key counts, and no key is empty. */
  lemma {:induction false} LastWins(known: Registry, strtoul: Strtoul, pieces: seq<string>, key: string)
    requires Meaning(known, strtoul, pieces).valid
    ensures Lookup(Meaning(known, strtoul, pieces).values, key) ==
      if key == "" || LastOf(pieces, key) == None then None
      else Accepted(known, key, ValueOf(LastOf(pieces, key).value), strtoul)
  {
    if pieces != [] {
      LastWins(known, strtoul, pieces[..|pieces| - 1], key);
    }
  }

  /** What is given for a key the last time. */
  function LastText(pieces: seq<string>, key: string): string {
    if LastOf(pieces, key) == None then "" else ValueOf(LastOf(pieces, key).value)
  }

  /**
   * A value without content is stored exactly for the options without a type.  As those take no
   * value, the text given for any key is refused, or it is what the stored value was read from.
   */
  lemma NoTextDropped(known: Registry, strtoul: Strtoul, pieces: seq<string>, key: string)
    requires Typed(known) && Meaning(known, strtoul, pieces).valid
    requires key in Meaning(known, strtoul, pieces).values
    ensures var v, text := Meaning(known, strtoul, pieces).values[key], LastText(pieces, key);
      && key in known && (v == ValueNone <==> known[key].kind == OptionNone)
      && (v == ValueNone ==> text == "")
      && (v.ValueString? ==> v.s == text)
      && (v.ValueInteger? ==> strtoul(text).1 >= |text| && v.i == ToI32(ToU32(strtoul(text).0)))
  {
    LastWins(known, strtoul, pieces, key);
  }

  /** An invalid result holds what the pieces before the first unacceptable one say. */
  lemma {:induction false} InvalidMeaning(known: Registry, strtoul: Strtoul, pieces: seq<string>) returns (k: nat)
    requires !Meaning(known, strtoul, pieces).valid
    ensures k < |pieces| && !Acceptable(known, strtoul, pieces[k])
    ensures Meaning(known, strtoul, pieces[..k]) == Options(Meaning(known, strtoul, pieces).values, true)
  {
    var n := |pieces| - 1;
    if Meaning(known, strtoul, pieces[..n]).valid {
      k := n;
    } else {
      k := InvalidMeaning(known, strtoul, pieces[..n]);
      assert pieces[..n][..k] == pieces[..k];
    }
  }

  // ----- round trip -----

  /** A list of pairs as an argument, and as a map. */
  function Joined(pairs: seq<(string, string)>): string {
    Join(AllWritten(pairs), ',')
  }

  function AllWritten(pairs: seq<(string, string)>): (written: seq<string>)
    ensures |written| == |pairs|
  {
    if pairs == [] then []
    else AllWritten(pairs[..|pairs| - 1]) + [Written(pairs[|pairs| - 1])]
  }

  function Written(pair: (string, string)): string {
    pair.0 + ['='] + pair.1
  }

  function MapOf(pairs: seq<(string, string)>): map<string, OptionValue> {
    if pairs == [] then map[]
    else
      var n := |pairs| - 1;
      MapOf(pairs[..n])[pairs[n].0 := ValueString(pairs[n].1)]
  }

  /** A key and a value that can be written down. */
  predicate Writable(pair: (string, string)) {
    pair.0 != "" && ',' !in pair.0 && '=' !in pair.0 && ',' !in pair.1
  }

  lemma WrittenSplits(pair: (string, string))
    requires Writable(pair)
    ensures KeyOf(Written(pair)) == pair.0 && ValueOf(Written(pair)) == pair.1 && ',' !in Written(pair)
  {
    var w, e := Written(pair), |pair.0|;
    assert w[e] == '=' && forall j :: 0 <= j < e ==> w[j] == pair.0[j];
    assert Find(w, '=', 0) == e;
    assert w[..e] == pair.0 && w[e + 1..] == pair.1;
  }

  lemma {:induction false} NoCommas(pairs: seq<(string, string)>)
    requires forall p :: p in pairs ==> Writable(p)
    ensures NoneHas(AllWritten(pairs), ',')
  {
    if pairs != [] {
      NoCommas(pairs[..|pairs| - 1]);
      WrittenSplits(pairs[|pairs| - 1]);
    }
  }

  predicate AllPermitted(known: Registry, pairs: seq<(string, string)>) {
    forall p :: p in pairs ==> p.0 in known && Permits(known[p.0].argument, p.1)
  }

  lemma {:induction false} WrittenMeaning(known: Registry, strtoul: Strtoul, pairs: seq<(string, string)>)
    requires forall p :: p in pairs ==> Writable(p)
    requires forall p :: p in pairs && p.0 in known ==> known[p.0].kind == OptionString
    ensures var r := Meaning(known, strtoul, AllWritten(pairs));
      if AllPermitted(known, pairs) then r == Options(MapOf(pairs), true) else !r.valid
  {
    if pairs != [] {
      var n := |pairs| - 1;
      var last := pairs[n];
      assert pairs == pairs[..n] + [last];
      WrittenMeaning(known, strtoul, pairs[..n]);
      WrittenSplits(last);
      MeaningPush(known, strtoul, AllWritten(pairs[..n]), Written(last));
      assert AllPermitted(known, pairs) <==>
        AllPermitted(known, pairs[..n]) && last.0 in known && Permits(known[last.0].argument, last.1);
    }
  }

  lemma NothingMeant(known: Registry, strtoul: Strtoul)
    ensures Meaning(known, strtoul, Pieces("")) == Options(map[], true)
  {
    var none: seq<string> := [""];
    assert KeyOf("") == "" && Pieces("") == none && none[..0] == [];
  }

  /**
   * String options written as key=value pairs parse back to the same map, with a repeated key
   * standing for its last value, exactly when each key is known and may have its value.
   */
  lemma RoundTrip(known: Registry, strtoul: Strtoul, pairs: seq<(string, string)>)
    requires forall p :: p in pairs ==> Writable(p)
    requires forall p :: p in pairs && p.0 in known ==> known[p.0].kind == OptionString
    ensures var r := Meaning(known, strtoul, Pieces(Joined(pairs)));
      if AllPermitted(known, pairs) then r == Options(MapOf(pairs), true) else !r.valid
  {
    if pairs == [] {
      NothingMeant(known, strtoul);
    } else {
      NoCommas(pairs);
      SplitJoin(AllWritten(pairs), ',');
      WrittenMeaning(known, strtoul, pairs);
    }
  }

  /** The pairs of a map, in the order of a list of its keys. */
  function Listing(m: map<string, string>, keys: seq<string>): seq<(string, string)> {
    seq(|keys|, i requires 0 <= i < |keys| => (keys[i], if keys[i] in m then m[keys[i]] else ""))
  }

  /** So any map of string options can be written down and read back, its keys in any order. */
  lemma {:induction false} MapOfListing(m: map<string, string>, keys: seq<string>)
    requires forall k :: k in keys ==> k in m
    ensures var values := MapOf(Listing(m, keys));
      && (forall k :: k in values <==> k in keys)
      && forall k :: k in keys ==> values[k] == ValueString(m[k])
  {
    if keys != [] {
      var n := |keys| - 1;
      assert keys == keys[..n] + [keys[n]];
      MapOfListing(m, keys[..n]);
      assert Listing(m, keys)[..n] == Listing(m, keys[..n]);
    }
  }
}
