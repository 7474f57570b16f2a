/** The decoder as pure functions over an abstract state: the adaptive
    dictionary (`appendValue`), one token (`getString`) and the driver loop
    (`decompress`). The imperative decoder in module LzString is proved to
    compute exactly these. */
module Decoding {
  import opened Wrappers
  import opened Alphabet
  import opened Runes
  import opened BitStream

  /** The decoder's state, with the bit reader's cursor (`val`, `position`,
      `index`) abstracted to the number of stream bits consumed so far. */
  datatype State = State(bitsRead: nat, dictionary: seq<seq<int>>, enlargeIn: int, numBits: nat)

  /** What one `getString` call produces. */
  datatype Outcome = Token(text: seq<int>) | EndMarker | Failed(error: Error)

  /** The reserved entries "0", "1" and "2"; codes 0, 1 and 2 never look them up. */
  const Placeholders: seq<seq<int>> := [['0' as int], ['1' as int], ['2' as int]]

  /** The state the driver starts from: three placeholders, five appends until
      the code width grows, 2-bit codes. */
  const Initial: State := State(0, Placeholders, 5, 2)

  /** `appendValue`: add `s` as the next dictionary entry; once the countdown
      reaches zero the code width grows by one bit and the countdown restarts
      at 2^numBits. */
  function Extend(st: State, s: seq<int>): (r: State)
    ensures r.dictionary == st.dictionary + [s]
    ensures r.bitsRead == st.bitsRead
    ensures r.numBits == st.numBits + 1 <==> st.enlargeIn == 1
    ensures r.numBits == st.numBits || r.numBits == st.numBits + 1
    ensures r.enlargeIn == if st.enlargeIn == 1 then Pow2(st.numBits) else st.enlargeIn - 1
    ensures Sized(st) ==> Sized(r)
  {
    var left := st.enlargeIn - 1;
    if left == 0 then
      st.(dictionary := st.dictionary + [s], enlargeIn := Pow2(st.numBits), numBits := st.numBits + 1)
    else
      st.(dictionary := st.dictionary + [s], enlargeIn := left)
  }

  /** The code width fits the dictionary: codes of `numBits` bits reach every
      entry and the one about to be made, and the countdown is positive. */
  predicate Sized(st: State)
  {
    |st.dictionary| + st.enlargeIn == Pow2(st.numBits) && st.enlargeIn >= 1
  }

  /** Every entry is well-formed text. */
  predicate AllText(d: seq<seq<int>>)
  {
    forall i :: 0 <= i < |d| ==> IsText(d[i])
  }

  /** What holds at the top of each iteration of the driver's loop: the
      reader stands on a fetched symbol and the code width fits the
      dictionary. */
  predicate Ready(input: seq<byte>, st: State)
  {
    st.bitsRead / 6 < |input| && st.numBits >= 2 && |st.dictionary| >= 3 && Sized(st)
  }

  /** A literal of `width` bits (8 after code 0, 16 after code 1), appended
      to the dictionary as a one-character entry. */
  function Literal(t: Table, input: seq<byte>, st: State, width: nat): (Outcome, State)
  {
    match Bits(t, input, st.bitsRead, width)
    case Failure(e) => (Failed(e), st)
    case Success(v) =>
      var s := [RuneOf(v)];
      (Token(s), Extend(st.(bitsRead := st.bitsRead + width), s))
  }

  /** What `getString` does with the code `c` it has read; `st` is the state
      after the code. */
  function Dispatch(t: Table, input: seq<byte>, st: State, last: seq<int>, c: nat): (Outcome, State)
  {
    if c == 0 then Literal(t, input, st, 8)
    else if c == 1 then Literal(t, input, st, 16)
    else if c == 2 then (EndMarker, st)
    else if c < |st.dictionary| then (Token(st.dictionary[c]), st)
    else if c == |st.dictionary| then (Token(ConcatWithFirstRune(last, last)), st)
    else (Failed(BadCharacterEncoding), st)
  }

  /** `getString`: read a `numBits`-wide code and act on it. */
  function NextToken(t: Table, input: seq<byte>, st: State, last: seq<int>): (Outcome, State)
  {
    match Bits(t, input, st.bitsRead, st.numBits)
    case Failure(e) => (Failed(e), st)
    case Success(c) => Dispatch(t, input, st.(bitsRead := st.bitsRead + st.numBits), last, c)
  }

  /** A literal that is read is `string(v)` of the `width`-bit value `v`; it
      consumes `width` bits, leaves the reader inside the input and appends
      itself, a single character, to the dictionary. */
  lemma LiteralEffect(t: Table, input: seq<byte>, st: State, width: nat)
    requires st.bitsRead / 6 < |input|
    ensures var (o, st') := Literal(t, input, st, width);
      !o.Failed? ==>
        && o.Token? && |o.text| == 1 && IsText(o.text)
        && o.text == [RuneOf(Bits(t, input, st.bitsRead, width).value)]
        && st'.bitsRead == st.bitsRead + width && st'.bitsRead / 6 < |input|
        && st' == Extend(st.(bitsRead := st'.bitsRead), o.text)
  {
    if Bits(t, input, st.bitsRead, width).Success? {
      BitsStayInInput(t, input, st.bitsRead, width);
    }
  }

  /** Acting on a code consumes no bits beyond a literal's and keeps the
      reader inside the input; it leaves the dictionary alone or appends the
      token, a single character, to it. */
  lemma DispatchEffect(t: Table, input: seq<byte>, st: State, last: seq<int>, c: nat)
    requires st.bitsRead / 6 < |input|
    ensures var (o, st') := Dispatch(t, input, st, last, c);
      !o.Failed? ==>
        && st'.bitsRead >= st.bitsRead && st'.bitsRead / 6 < |input|
        && var same := st.(bitsRead := st'.bitsRead);
           (st' == same || (o.Token? && |o.text| == 1 && IsText(o.text) && st' == Extend(same, o.text)))
  {
    if c == 0 {
      LiteralEffect(t, input, st, 8);
    } else if c == 1 {
      LiteralEffect(t, input, st, 16);
    }
  }

  /** A successful step consumes at least one code's worth of bits and never
      moves the reader past the end of the input; it leaves the dictionary
      alone or appends the token, a single character, to it. */
  lemma NextTokenEffect(t: Table, input: seq<byte>, st: State, last: seq<int>)
    requires st.bitsRead / 6 < |input|
    ensures var (o, st') := NextToken(t, input, st, last);
      !o.Failed? ==>
        && st'.bitsRead >= st.bitsRead + st.numBits
        && st'.bitsRead / 6 < |input|
        && var same := st.(bitsRead := st'.bitsRead);
           (st' == same || (o.Token? && |o.text| == 1 && IsText(o.text) && st' == Extend(same, o.text)))
  {
    var code := Bits(t, input, st.bitsRead, st.numBits);
    if code.Success? {
      BitsStayInInput(t, input, st.bitsRead, st.numBits);
      var after := st.(bitsRead := st.bitsRead + st.numBits);
      assert NextToken(t, input, st, last) == Dispatch(t, input, after, last, code.value);
      DispatchEffect(t, input, after, last, code.value);
    }
  }

  /** How `getString` answers each code `c` it has read, from the state `st`
      after the code. The end marker comes exactly from code 2 and
      BadCharacterEncoding exactly from a code past the next free entry
      (literal reads fail only for want of a symbol). A token that adds
      nothing to the dictionary is an entry at index 3 or more (never a
      placeholder) or, for the next free code, `last` followed by its first
      character; a token that adds an entry is a one-character literal from
      code 0 or 1. */
  lemma DispatchCodes(t: Table, input: seq<byte>, st: State, last: seq<int>, c: nat)
    requires |st.dictionary| >= 3
    ensures var (o, st') := Dispatch(t, input, st, last, c);
      var d := st.dictionary;
      && (o.EndMarker? <==> c == 2)
      && (o == Failed(BadCharacterEncoding) <==> c > |d|)
      && (o.Token? && st'.dictionary == d ==>
            && 3 <= c <= |d|
            && o.text == if c < |d| then d[c] else ConcatWithFirstRune(last, last))
      && (o.Token? && st'.dictionary != d ==> c <= 1 && |o.text| == 1 && st'.dictionary == d + [o.text])
  {
    var a := st.bitsRead;
    if c == 0 {
      BitsErrorIsAboutSymbols(t, input, a / 6 + 1, (a + 8) / 6);
    } else if c == 1 {
      BitsErrorIsAboutSymbols(t, input, a / 6 + 1, (a + 16) / 6);
    }
  }

  /** `getString` as a whole: a read failure is reported as such, never as
      BadCharacterEncoding, and a code that is read is dispatched as above. */
  lemma NextTokenCodes(t: Table, input: seq<byte>, st: State, last: seq<int>)
    requires |st.dictionary| >= 3
    ensures var (o, st') := NextToken(t, input, st, last);
      var code := Bits(t, input, st.bitsRead, st.numBits);
      var d := st.dictionary;
      && (code.Failure? ==> o == Failed(code.error) && code.error != BadCharacterEncoding && st' == st)
      && (o.EndMarker? <==> code == Success(2))
      && (o == Failed(BadCharacterEncoding) <==> code.Success? && code.value > |d|)
  {
    var c := st.bitsRead;
    var code := Bits(t, input, c, st.numBits);
    BitsErrorIsAboutSymbols(t, input, c / 6 + 1, (c + st.numBits) / 6);
    if code.Success? {
      var after := st.(bitsRead := c + st.numBits);
      assert NextToken(t, input, st, last) == Dispatch(t, input, after, last, code.value);
      DispatchCodes(t, input, after, last, code.value);
    } else {
      assert NextToken(t, input, st, last) == (Failed(code.error), st);
    }
  }

  /** One iteration of the driver's loop keeps its invariant and consumes
      bits: after a token, the entry `last + firstRune(token)` is added. */
  lemma {:induction false} StepKeepsReady(t: Table, input: seq<byte>, st: State, last: seq<int>)
    requires Ready(input, st)
    requires NextToken(t, input, st, last).0.Token?
    ensures var (o, st') := NextToken(t, input, st, last);
      var next := Extend(st', ConcatWithFirstRune(last, o.text));
      Ready(input, next) && next.bitsRead > st.bitsRead
  {
    var (o, st') := NextToken(t, input, st, last);
    NextTokenEffect(t, input, st, last);
    var same := st.(bitsRead := st'.bitsRead);
    assert Sized(same);
  }

  /** Tokens and new entries are well-formed text when the entries and `last`
      are. */
  lemma {:induction false} StepKeepsText(t: Table, input: seq<byte>, st: State, last: seq<int>)
    requires Ready(input, st) && AllText(st.dictionary) && IsText(last)
    requires NextToken(t, input, st, last).0.Token?
    ensures var (o, st') := NextToken(t, input, st, last);
      var next := Extend(st', ConcatWithFirstRune(last, o.text));
      IsText(o.text) && AllText(next.dictionary)
  {
    var (o, st') := NextToken(t, input, st, last);
    NextTokenEffect(t, input, st, last);
    if st'.dictionary != st.dictionary {
      AllTextSnoc(st.dictionary, o.text);
    }
    AllTextSnoc(st'.dictionary, ConcatWithFirstRune(last, o.text));
  }

  /** The driver's loop: decode tokens until the end marker or an error,
      appending each token to the output `acc`. */
  function DecodeFrom(t: Table, input: seq<byte>, st: State, last: seq<int>, acc: seq<int>)
    : (seq<int>, Option<Error>)
    requires Ready(input, st)
    decreases 6 * |input| - st.bitsRead
  {
    var (o, st') := NextToken(t, input, st, last);
    match o
    case Failed(e) => (acc, Some(e))
    case EndMarker => (acc, None)
    case Token(s) =>
      StepKeepsReady(t, input, st, last);
      DecodeFrom(t, input, Extend(st', ConcatWithFirstRune(last, s)), s, acc + s)
  }

  /** One turn of the loop: after a token `s` the loop goes on from the state
      with `last + firstRune(s)` appended, having added `s` to the output. */
  lemma DecodeFromStep(t: Table, input: seq<byte>, st: State, last: seq<int>, acc: seq<int>)
    requires Ready(input, st)
    requires NextToken(t, input, st, last).0.Token?
    ensures var (o, st') := NextToken(t, input, st, last);
      var next := Extend(st', ConcatWithFirstRune(last, o.text));
      && Ready(input, next) && next.bitsRead > st.bitsRead
      && DecodeFrom(t, input, st, last, acc) == DecodeFrom(t, input, next, o.text, acc + o.text)
  {
    StepKeepsReady(t, input, st, last);
  }

  /** The loop stops at the end marker with no error and at a failed token
      with its error, keeping the output decoded so far. */
  lemma DecodeFromStop(t: Table, input: seq<byte>, st: State, last: seq<int>, acc: seq<int>)
    requires Ready(input, st)
    requires !NextToken(t, input, st, last).0.Token?
    ensures var o := NextToken(t, input, st, last).0;
      DecodeFrom(t, input, st, last, acc) == (acc, if o.Failed? then Some(o.error) else None)
  {
  }

  /** The loop at code 2: it stops with the output so far and no error. */
  lemma DecodeFromEnd(t: Table, input: seq<byte>, st: State, last: seq<int>, acc: seq<int>)
    requires Ready(input, st) && Bits(t, input, st.bitsRead, st.numBits) == Success(2)
    ensures DecodeFrom(t, input, st, last, acc) == (acc, None)
  {
    assert NextToken(t, input, st, last).0 == EndMarker;
    DecodeFromStop(t, input, st, last, acc);
  }

  /** The loop at a code 0 and its 8-bit literal `v`: the character is
      output and becomes `last`, and two entries are added, the character
      itself (by `getString`) and then `last` followed by it (by the loop). */
  lemma DecodeFromLiteral(t: Table, input: seq<byte>, st: State, last: seq<int>, acc: seq<int>, v: nat)
    requires Ready(input, st) && Bits(t, input, st.bitsRead, st.numBits) == Success(0)
    requires Bits(t, input, st.bitsRead + st.numBits, 8) == Success(v)
    ensures var s := [RuneOf(v)];
      var next := Extend(Extend(st.(bitsRead := st.bitsRead + st.numBits + 8), s), ConcatWithFirstRune(last, s));
      Ready(input, next) && DecodeFrom(t, input, st, last, acc) == DecodeFrom(t, input, next, s, acc + s)
  {
    LiteralToken(t, input, st, last, v);
    DecodeFromStep(t, input, st, last, acc);
  }

  /** `getString` at a code 0 and its 8-bit literal `v`: the token is that
      one character, appended to the dictionary after the literal's bits. */
  lemma LiteralToken(t: Table, input: seq<byte>, st: State, last: seq<int>, v: nat)
    requires Bits(t, input, st.bitsRead, st.numBits) == Success(0)
    requires Bits(t, input, st.bitsRead + st.numBits, 8) == Success(v)
    ensures NextToken(t, input, st, last)
         == (Token([RuneOf(v)]), Extend(st.(bitsRead := st.bitsRead + st.numBits + 8), [RuneOf(v)]))
  {
    var after := st.(bitsRead := st.bitsRead + st.numBits);
    assert NextToken(t, input, st, last) == Dispatch(t, input, after, last, 0);
    LiteralDispatch(t, input, after, last, v);
    assert after.(bitsRead := after.bitsRead + 8) == st.(bitsRead := st.bitsRead + st.numBits + 8);
  }

  /** Code 0 read, then an 8-bit literal `v`: the token `[v]` (U+FFFD for a
      surrogate) and the state after the literal with the token appended. */
  lemma LiteralDispatch(t: Table, input: seq<byte>, st: State, last: seq<int>, v: nat)
    requires Bits(t, input, st.bitsRead, 8) == Success(v)
    ensures Dispatch(t, input, st, last, 0)
         == (Token([RuneOf(v)]), Extend(st.(bitsRead := st.bitsRead + 8), [RuneOf(v)]))
  {
    assert Dispatch(t, input, st, last, 0) == Literal(t, input, st, 8);
  }

  /** Code 1 read, then a 16-bit literal `v`: the token is `string(v)`,
      appended to the dictionary after 16 more bits. */
  lemma WideLiteralDispatch(t: Table, input: seq<byte>, st: State, last: seq<int>, v: nat)
    requires Bits(t, input, st.bitsRead, 16) == Success(v)
    ensures Dispatch(t, input, st, last, 1)
         == (Token([RuneOf(v)]), Extend(st.(bitsRead := st.bitsRead + 16), [RuneOf(v)]))
  {
    assert Dispatch(t, input, st, last, 1) == Literal(t, input, st, 16);
  }

  /** A 16-bit literal in the surrogate range is not a character: Go's
      `string(v)` turns it into U+FFFD, which is what is returned and stored. */
  lemma SurrogateLiteral(t: Table, input: seq<byte>, st: State, last: seq<int>, v: nat)
    requires Bits(t, input, st.bitsRead, 16) == Success(v) && 0xD800 <= v <= 0xDFFF
    ensures Dispatch(t, input, st, last, 1)
         == (Token([Replacement]), Extend(st.(bitsRead := st.bitsRead + 16), [Replacement]))
  {
    WideLiteralDispatch(t, input, st, last, v);
  }

  /** The loop at a back-reference `c` (3 <= c < |dictionary|): entry `c` is
      output and becomes `last`, and `last + firstRune(entry c)` is added. */
  lemma DecodeFromEntry(t: Table, input: seq<byte>, st: State, last: seq<int>, acc: seq<int>, c: nat)
    requires Ready(input, st) && Bits(t, input, st.bitsRead, st.numBits) == Success(c)
    requires 3 <= c < |st.dictionary|
    ensures var s := st.dictionary[c];
      var next := Extend(st.(bitsRead := st.bitsRead + st.numBits), ConcatWithFirstRune(last, s));
      Ready(input, next) && DecodeFrom(t, input, st, last, acc) == DecodeFrom(t, input, next, s, acc + s)
  {
    var after := st.(bitsRead := st.bitsRead + st.numBits);
    assert NextToken(t, input, st, last) == (Token(st.dictionary[c]), after);
    DecodeFromStep(t, input, st, last, acc);
  }

  /** The loop at the next free code `|dictionary|`: the token is `last`
      followed by its own first character, and the entry added for it is that
      same string, so the code now names what it was decoded as. */
  lemma DecodeFromSelfReference(t: Table, input: seq<byte>, st: State, last: seq<int>, acc: seq<int>)
    requires Ready(input, st) && Bits(t, input, st.bitsRead, st.numBits) == Success(|st.dictionary|)
    ensures var s := ConcatWithFirstRune(last, last);
      var next := Extend(st.(bitsRead := st.bitsRead + st.numBits), s);
      Ready(input, next) && DecodeFrom(t, input, st, last, acc) == DecodeFrom(t, input, next, s, acc + s)
  {
    var s := ConcatWithFirstRune(last, last);
    var after := st.(bitsRead := st.bitsRead + st.numBits);
    assert NextToken(t, input, st, last) == (Token(s), after);
    DecodeFromStep(t, input, st, last, acc);
    assert FirstRune(s) == FirstRune(last);
  }

  /** The loop only ever appends to the output, and appends well-formed
      text. */
  lemma {:induction false} DecodeFromText(t: Table, input: seq<byte>, st: State, last: seq<int>, acc: seq<int>)
    requires Ready(input, st) && AllText(st.dictionary) && IsText(last) && IsText(acc)
    ensures var r := DecodeFrom(t, input, st, last, acc).0;
      IsText(r) && |acc| <= |r| && r[..|acc|] == acc
    decreases 6 * |input| - st.bitsRead
  {
    var (o, st') := NextToken(t, input, st, last);
    if o.Token? {
      var s := o.text;
      var next := Extend(st', ConcatWithFirstRune(last, s));
      DecodeFromStep(t, input, st, last, acc);
      StepKeepsText(t, input, st, last);
      DecodeFromText(t, input, next, s, acc + s);
      assert (acc + s)[..|acc|] == acc;
    } else {
      DecodeFromStop(t, input, st, last, acc);
    }
  }

  /** `decompress`: the output text and the error, if any. */
  function Decoded(t: Table, input: seq<byte>): (seq<int>, Option<Error>)
  {
    if |input| == 0 then ([], None)
    else match Lookup(t, input[0])
      case None => ([], Some(IllegalCharacter))
      case Some(_) =>
        var (o, st) := NextToken(t, input, Initial, []);
        match o
        case Failed(e) => ([], Some(e))
        case EndMarker => ([], None)
        case Token(s) =>
          FirstTokenMakesReady(t, input);
          DecodeFrom(t, input, st.(numBits := st.numBits + 1), s, s)
  }

  /** How `decompress` starts: with a non-empty input whose first symbol is
      in the table it reads one token, and a token starts the loop from the
      state after it, one bit wider, with the token as output and `last`. */
  lemma DecodedStart(t: Table, input: seq<byte>)
    requires |input| > 0 && Lookup(t, input[0]).Some?
    ensures var (o, st) := NextToken(t, input, Initial, []);
      && (o.Failed? ==> Decoded(t, input) == ([], Some(o.error)))
      && (o.EndMarker? ==> Decoded(t, input) == ([], None))
      && (o.Token? ==>
            && Ready(input, st.(numBits := st.numBits + 1))
            && Decoded(t, input) == DecodeFrom(t, input, st.(numBits := st.numBits + 1), o.text, o.text))
  {
    if NextToken(t, input, Initial, []).0.Token? {
      FirstTokenMakesReady(t, input);
    }
  }

  /** `decompress` after a first code 0 and its 8-bit literal `v`: the loop
      starts with that one character as output and `last`, as entry 3, with
      3-bit codes and four appends to go. */
  lemma DecodedFirstLiteral(t: Table, input: seq<byte>, v: nat)
    requires |input| > 0 && Lookup(t, input[0]).Some?
    requires Bits(t, input, 0, 2) == Success(0) && Bits(t, input, 2, 8) == Success(v)
    ensures var s := [RuneOf(v)];
      var st := State(10, Placeholders + [s], 4, 3);
      Ready(input, st) && Decoded(t, input) == DecodeFrom(t, input, st, s, s)
  {
    var s := [RuneOf(v)];
    LiteralToken(t, input, Initial, [], v);
    assert Extend(Initial.(bitsRead := 10), s) == State(10, Placeholders + [s], 4, 2);
    DecodedStart(t, input);
  }

  /** After the first token and the extra width bump the loop invariant holds:
      3 or 4 entries, a countdown of 5 or 4, and 3-bit codes. */
  lemma FirstTokenMakesReady(t: Table, input: seq<byte>)
    requires |input| > 0
    requires NextToken(t, input, Initial, []).0.Token?
    ensures var (o, st) := NextToken(t, input, Initial, []);
      Ready(input, st.(numBits := st.numBits + 1))
  {
    NextTokenEffect(t, input, Initial, []);
    assert Pow2(3) == 8;
  }

  lemma PlaceholdersAreText()
    ensures AllText(Placeholders)
  {
    assert IsText(Placeholders[0]) && IsText(Placeholders[1]) && IsText(Placeholders[2]);
  }

  lemma AllTextSnoc(d: seq<seq<int>>, s: seq<int>)
    requires AllText(d) && IsText(s)
    ensures AllText(d + [s])
  {
    assert forall i :: 0 <= i < |d| ==> (d + [s])[i] == d[i];
  }

  /** The first token and the dictionary after it are well-formed text. */
  lemma FirstTokenIsText(t: Table, input: seq<byte>)
    requires |input| > 0
    requires NextToken(t, input, Initial, []).0.Token?
    ensures var (o, st) := NextToken(t, input, Initial, []);
      IsText(o.text) && AllText(st.dictionary)
  {
    var (o, st) := NextToken(t, input, Initial, []);
    NextTokenEffect(t, input, Initial, []);
    PlaceholdersAreText();
    if st.dictionary != Placeholders {
      AllTextSnoc(Placeholders, o.text);
    }
  }

  /** A symbol outside the table is the only cause of IllegalCharacter: a
      step that reports it has met such a symbol in the input. */
  lemma NextTokenIllegal(t: Table, input: seq<byte>, st: State, last: seq<int>)
    ensures NextToken(t, input, st, last).0 == Failed(IllegalCharacter)
        ==> exists s :: 0 <= s < |input| && Lookup(t, input[s]).None?
  {
    var a := st.bitsRead;
    var code := Bits(t, input, a, st.numBits);
    if code.Success? {
      var after := st.(bitsRead := a + st.numBits);
      assert NextToken(t, input, st, last) == Dispatch(t, input, after, last, code.value);
      DispatchIllegal(t, input, after, last, code.value);
    } else {
      BitsFailure(t, input, a / 6 + 1, (a + st.numBits) / 6);
    }
  }

  /** The same for acting on a code: only a literal read can meet such a symbol. */
  lemma DispatchIllegal(t: Table, input: seq<byte>, st: State, last: seq<int>, c: nat)
    ensures Dispatch(t, input, st, last, c).0 == Failed(IllegalCharacter)
        ==> exists s :: 0 <= s < |input| && Lookup(t, input[s]).None?
  {
    var b := st.bitsRead;
    if c == 0 {
      BitsFailure(t, input, b / 6 + 1, (b + 8) / 6);
    } else if c == 1 {
      BitsFailure(t, input, b / 6 + 1, (b + 16) / 6);
    }
  }

  lemma {:induction false} DecodeFromIllegal(t: Table, input: seq<byte>, st: State, last: seq<int>, acc: seq<int>)
    requires Ready(input, st)
    ensures DecodeFrom(t, input, st, last, acc).1 == Some(IllegalCharacter)
        ==> exists s :: 0 <= s < |input| && Lookup(t, input[s]).None?
    decreases 6 * |input| - st.bitsRead
  {
    var (o, st') := NextToken(t, input, st, last);
    if o.Token? {
      DecodeFromStep(t, input, st, last, acc);
      DecodeFromIllegal(t, input, Extend(st', ConcatWithFirstRune(last, o.text)), o.text, acc + o.text);
    } else {
      DecodeFromStop(t, input, st, last, acc);
      NextTokenIllegal(t, input, st, last);
    }
  }

  /** `decompress` reports IllegalCharacter only for an input holding a
      symbol outside the table (one it reached before the end marker). */
  lemma DecodedIllegal(t: Table, input: seq<byte>)
    ensures Decoded(t, input).1 == Some(IllegalCharacter)
        ==> exists s :: 0 <= s < |input| && Lookup(t, input[s]).None?
  {
    if |input| > 0 && Lookup(t, input[0]).Some? {
      DecodedStart(t, input);
      NextTokenIllegal(t, input, Initial, []);
      var (o, st) := NextToken(t, input, Initial, []);
      if o.Token? {
        DecodeFromIllegal(t, input, st.(numBits := st.numBits + 1), o.text, o.text);
      }
    }
  }

  /** A first code of 3 is the next free code of the three placeholders: with
      `last` still empty the token is the lone character U+FFFD. */
  lemma FirstSelfReference(t: Table, input: seq<byte>)
    requires Bits(t, input, 0, 2) == Success(3)
    ensures NextToken(t, input, Initial, []) == (Token([Replacement]), Initial.(bitsRead := 2))
  {
    assert NextToken(t, input, Initial, []) == Dispatch(t, input, Initial.(bitsRead := 2), [], 3);
  }

  /** The output of `decompress` is well-formed text. */
  lemma DecodedIsText(t: Table, input: seq<byte>)
    ensures IsText(Decoded(t, input).0)
  {
    if |input| > 0 && Lookup(t, input[0]).Some? {
      DecodedStart(t, input);
      var (o, st) := NextToken(t, input, Initial, []);
      if o.Token? {
        FirstTokenIsText(t, input);
        DecodeFromText(t, input, st.(numBits := st.numBits + 1), o.text, o.text);
      }
    }
  }
}
