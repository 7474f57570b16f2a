/** Concrete decodings from lz-string_test.go, worked through token by token.
    Each is stated for both tables and for any input that starts with the
    fixture's symbols: symbols after the end marker (the `=` padding of the
    Base64 forms) are never read. Together they exercise a literal at the
    start and inside the loop, a back-reference, the self-referential code
    twice in a row, and an input cut short. */
module Fixtures {
  import opened Wrappers
  import opened Alphabet
  import opened Runes
  import opened BitStream
  import opened Decoding

  predicate StartsWith(input: seq<byte>, prefix: seq<byte>)
  {
    |prefix| <= |input| && input[..|prefix|] == prefix
  }

  /** `decompress` after a first code 0 and the literal `v`, a scalar value:
      the loop starts from stream bit 10 with `v` as output and `last`. */
  lemma StartsWithLiteral(t: Table, input: seq<byte>, v: nat)
    requires |input| > 0 && Lookup(t, input[0]).Some? && IsScalar(v)
    requires Bits(t, input, 0, 2) == Success(0) && Bits(t, input, 2, 8) == Success(v)
    ensures Ready(input, State(10, Placeholders + [[v]], 4, 3))
    ensures Decoded(t, input) == DecodeFrom(t, input, State(10, Placeholders + [[v]], 4, 3), [v], [v])
  {
    DecodedFirstLiteral(t, input, v);
    assert [RuneOf(v)] == [v];
  }

  /** Symbol `i` of an input that starts with `prefix`. */
  lemma SymbolAt(t: Table, input: seq<byte>, prefix: seq<byte>, i: nat, v: nat)
    requires StartsWith(input, prefix) && i < |prefix| && Lookup(t, prefix[i]) == Some(v)
    ensures Fetch(t, input, i) == Success(v)
  {
    assert input[i] == input[..|prefix|][i];
  }

  // ---------------------------------------------------------------------
  // "IZA" / "IZA=" decode to "a": literal 'a', then the end marker.
  // Symbol values 8, 25, 0.

  lemma IzaFirstCode(t: Table, input: seq<byte>)
    requires StartsWith(input, [73, 90, 65])
    ensures Bits(t, input, 0, 2) == Success(0)
  {
    SymbolAt(t, input, [73, 90, 65], 0, 8);
    assert StreamBit(t, input, 0) == BitOf(8, 5) == 0;
    assert StreamBit(t, input, 1) == BitOf(8, 4) == 0;
    assert BitsValue(t, input, 0, 2) == 0;
  }

  lemma IzaLiteralBits0(t: Table, input: seq<byte>)
    requires StartsWith(input, [73, 90, 65])
    ensures StreamBit(t, input, 2) == 1
    ensures StreamBit(t, input, 3) == 0
    ensures StreamBit(t, input, 4) == 0
    ensures StreamBit(t, input, 5) == 0
  {
    SymbolAt(t, input, [73, 90, 65], 0, 8);
    assert StreamBit(t, input, 2) == BitOf(8, 3) == 1;
    assert StreamBit(t, input, 3) == BitOf(8, 2) == 0;
    assert StreamBit(t, input, 4) == BitOf(8, 1) == 0;
    assert StreamBit(t, input, 5) == BitOf(8, 0) == 0;
  }

  lemma IzaLiteralBits1(t: Table, input: seq<byte>)
    requires StartsWith(input, [73, 90, 65])
    ensures StreamBit(t, input, 6) == 0
    ensures StreamBit(t, input, 7) == 1
    ensures StreamBit(t, input, 8) == 1
    ensures StreamBit(t, input, 9) == 0
  {
    SymbolAt(t, input, [73, 90, 65], 1, 25);
    assert StreamBit(t, input, 6) == BitOf(25, 5) == 0;
    assert StreamBit(t, input, 7) == BitOf(25, 4) == 1;
    assert StreamBit(t, input, 8) == BitOf(25, 3) == 1;
    assert StreamBit(t, input, 9) == BitOf(25, 2) == 0;
  }

  lemma IzaLiteral(t: Table, input: seq<byte>)
    requires StartsWith(input, [73, 90, 65])
    ensures Bits(t, input, 2, 8) == Success(97)
  {
    SymbolAt(t, input, [73, 90, 65], 1, 25);
    IzaLiteralBits0(t, input);
    IzaLiteralBits1(t, input);
    assert BitsValue(t, input, 9, 1) == 0;
    assert BitsValue(t, input, 8, 2) == 1;
    assert BitsValue(t, input, 7, 3) == 3;
    assert BitsValue(t, input, 6, 4) == 6;
    assert BitsValue(t, input, 5, 5) == 12;
    assert BitsValue(t, input, 4, 6) == 24;
    assert BitsValue(t, input, 3, 7) == 48;
    assert BitsValue(t, input, 2, 8) == 97;
  }

  lemma IzaEnd(t: Table, input: seq<byte>)
    requires StartsWith(input, [73, 90, 65])
    ensures Bits(t, input, 10, 3) == Success(2)
  {
    SymbolAt(t, input, [73, 90, 65], 1, 25);
    SymbolAt(t, input, [73, 90, 65], 2, 0);
    assert StreamBit(t, input, 10) == BitOf(25, 1) == 0;
    assert StreamBit(t, input, 11) == BitOf(25, 0) == 1;
    assert StreamBit(t, input, 12) == BitOf(0, 5) == 0;
    assert BitsValue(t, input, 10, 3) == 2;
  }

  /** From stream bit 10 on: the end marker. */
  lemma IzaFromBit10(t: Table, input: seq<byte>, st: State, acc: seq<int>)
    requires StartsWith(input, [73, 90, 65])
    requires Ready(input, st) && st.bitsRead == 10 && st.numBits == 3
    ensures DecodeFrom(t, input, st, [97], acc) == (acc, None)
  {
    IzaEnd(t, input);
    DecodeFromEnd(t, input, st, [97], acc);
  }

  /** The first token, the literal 97: the loop starts from stream bit 10. */
  lemma IzaStart(t: Table, input: seq<byte>)
    requires StartsWith(input, [73, 90, 65])
    ensures Ready(input, State(10, Placeholders + [[97]], 4, 3))
    ensures Decoded(t, input) == DecodeFrom(t, input, State(10, Placeholders + [[97]], 4, 3), [97], [97])
  {
    SymbolAt(t, input, [73, 90, 65], 0, 8);
    IzaFirstCode(t, input);
    IzaLiteral(t, input);
    StartsWithLiteral(t, input, 97);
  }

  lemma DecodesIza(t: Table, input: seq<byte>)
    requires StartsWith(input, [73, 90, 65])
    ensures Decoded(t, input) == ([97], None)
  {
    IzaStart(t, input);
    IzaFromBit10(t, input, State(10, Placeholders + [[97]], 4, 3), [97]);
  }

  // ---------------------------------------------------------------------
  // "IbI" / "IbI=" decode to "aa": literal 'a', code 3 (the entry "a"),
  // then the end marker. Symbol values 8, 27, 8.

  lemma IbiFirstCode(t: Table, input: seq<byte>)
    requires StartsWith(input, [73, 98, 73])
    ensures Bits(t, input, 0, 2) == Success(0)
  {
    SymbolAt(t, input, [73, 98, 73], 0, 8);
    assert StreamBit(t, input, 0) == BitOf(8, 5) == 0;
    assert StreamBit(t, input, 1) == BitOf(8, 4) == 0;
    assert BitsValue(t, input, 0, 2) == 0;
  }

  lemma IbiLiteralBits0(t: Table, input: seq<byte>)
    requires StartsWith(input, [73, 98, 73])
    ensures StreamBit(t, input, 2) == 1
    ensures StreamBit(t, input, 3) == 0
    ensures StreamBit(t, input, 4) == 0
    ensures StreamBit(t, input, 5) == 0
  {
    SymbolAt(t, input, [73, 98, 73], 0, 8);
    assert StreamBit(t, input, 2) == BitOf(8, 3) == 1;
    assert StreamBit(t, input, 3) == BitOf(8, 2) == 0;
    assert StreamBit(t, input, 4) == BitOf(8, 1) == 0;
    assert StreamBit(t, input, 5) == BitOf(8, 0) == 0;
  }

  lemma IbiLiteralBits1(t: Table, input: seq<byte>)
    requires StartsWith(input, [73, 98, 73])
    ensures StreamBit(t, input, 6) == 0
    ensures StreamBit(t, input, 7) == 1
    ensures StreamBit(t, input, 8) == 1
    ensures StreamBit(t, input, 9) == 0
  {
    SymbolAt(t, input, [73, 98, 73], 1, 27);
    assert StreamBit(t, input, 6) == BitOf(27, 5) == 0;
    assert StreamBit(t, input, 7) == BitOf(27, 4) == 1;
    assert StreamBit(t, input, 8) == BitOf(27, 3) == 1;
    assert StreamBit(t, input, 9) == BitOf(27, 2) == 0;
  }

  lemma IbiLiteral(t: Table, input: seq<byte>)
    requires StartsWith(input, [73, 98, 73])
    ensures Bits(t, input, 2, 8) == Success(97)
  {
    SymbolAt(t, input, [73, 98, 73], 1, 27);
    IbiLiteralBits0(t, input);
    IbiLiteralBits1(t, input);
    assert BitsValue(t, input, 9, 1) == 0;
    assert BitsValue(t, input, 8, 2) == 1;
    assert BitsValue(t, input, 7, 3) == 3;
    assert BitsValue(t, input, 6, 4) == 6;
    assert BitsValue(t, input, 5, 5) == 12;
    assert BitsValue(t, input, 4, 6) == 24;
    assert BitsValue(t, input, 3, 7) == 48;
    assert BitsValue(t, input, 2, 8) == 97;
  }

  lemma IbiBackReference(t: Table, input: seq<byte>)
    requires StartsWith(input, [73, 98, 73])
    ensures Bits(t, input, 10, 3) == Success(3)
  {
    SymbolAt(t, input, [73, 98, 73], 1, 27);
    SymbolAt(t, input, [73, 98, 73], 2, 8);
    assert StreamBit(t, input, 10) == BitOf(27, 1) == 1;
    assert StreamBit(t, input, 11) == BitOf(27, 0) == 1;
    assert StreamBit(t, input, 12) == BitOf(8, 5) == 0;
    assert BitsValue(t, input, 10, 3) == 3;
  }

  lemma IbiEnd(t: Table, input: seq<byte>)
    requires StartsWith(input, [73, 98, 73])
    ensures Bits(t, input, 13, 3) == Success(2)
  {
    SymbolAt(t, input, [73, 98, 73], 2, 8);
    assert StreamBit(t, input, 13) == BitOf(8, 4) == 0;
    assert StreamBit(t, input, 14) == BitOf(8, 3) == 1;
    assert StreamBit(t, input, 15) == BitOf(8, 2) == 0;
    assert BitsValue(t, input, 13, 3) == 2;
  }

  /** From stream bit 10 on: the back-reference "a" and the end marker. */
  lemma IbiFromBit10(t: Table, input: seq<byte>, st: State, acc: seq<int>)
    requires StartsWith(input, [73, 98, 73])
    requires Ready(input, st) && st.bitsRead == 10 && st.numBits == 3
    requires |st.dictionary| == 4 && st.dictionary[3] == [97]
    ensures DecodeFrom(t, input, st, [97], acc) == (acc + [97], None)
  {
    IbiBackReference(t, input);
    DecodeFromEntry(t, input, st, [97], acc, 3);
    var s := st.dictionary[3];
    var next := Extend(st.(bitsRead := st.bitsRead + st.numBits), ConcatWithFirstRune([97], s));
    assert next.bitsRead == 13 && next.numBits == 3;
    IbiEnd(t, input);
    DecodeFromEnd(t, input, next, s, acc + s);
  }

  /** The first token, the literal 97: the loop starts from stream bit 10. */
  lemma IbiStart(t: Table, input: seq<byte>)
    requires StartsWith(input, [73, 98, 73])
    ensures Ready(input, State(10, Placeholders + [[97]], 4, 3))
    ensures Decoded(t, input) == DecodeFrom(t, input, State(10, Placeholders + [[97]], 4, 3), [97], [97])
  {
    SymbolAt(t, input, [73, 98, 73], 0, 8);
    IbiFirstCode(t, input);
    IbiLiteral(t, input);
    StartsWithLiteral(t, input, 97);
  }

  lemma DecodesIbi(t: Table, input: seq<byte>)
    requires StartsWith(input, [73, 98, 73])
    ensures Decoded(t, input) == ([97, 97], None)
  {
    IbiStart(t, input);
    IbiFromBit10(t, input, State(10, Placeholders + [[97]], 4, 3), [97]);
    IbiJoined();
  }

  /** The first token and the rest of the output. */
  lemma IbiJoined()
    ensures [97] + [97] == [97, 97]
  {
  }

  // ---------------------------------------------------------------------
  // "Aco" / "Aco=" decode to "ààà": literal 'à', code 4 (the next free
  // code: "à" followed by its own first character), then the end marker.
  // Symbol values 0, 28, 40.

  lemma AcoFirstCode(t: Table, input: seq<byte>)
    requires StartsWith(input, [65, 99, 111])
    ensures Bits(t, input, 0, 2) == Success(0)
  {
    SymbolAt(t, input, [65, 99, 111], 0, 0);
    assert StreamBit(t, input, 0) == BitOf(0, 5) == 0;
    assert StreamBit(t, input, 1) == BitOf(0, 4) == 0;
    assert BitsValue(t, input, 0, 2) == 0;
  }

  lemma AcoLiteralBits0(t: Table, input: seq<byte>)
    requires StartsWith(input, [65, 99, 111])
    ensures StreamBit(t, input, 2) == 0
    ensures StreamBit(t, input, 3) == 0
    ensures StreamBit(t, input, 4) == 0
    ensures StreamBit(t, input, 5) == 0
  {
    SymbolAt(t, input, [65, 99, 111], 0, 0);
    assert StreamBit(t, input, 2) == BitOf(0, 3) == 0;
    assert StreamBit(t, input, 3) == BitOf(0, 2) == 0;
    assert StreamBit(t, input, 4) == BitOf(0, 1) == 0;
    assert StreamBit(t, input, 5) == BitOf(0, 0) == 0;
  }

  lemma AcoLiteralBits1(t: Table, input: seq<byte>)
    requires StartsWith(input, [65, 99, 111])
    ensures StreamBit(t, input, 6) == 0
    ensures StreamBit(t, input, 7) == 1
    ensures StreamBit(t, input, 8) == 1
    ensures StreamBit(t, input, 9) == 1
  {
    SymbolAt(t, input, [65, 99, 111], 1, 28);
    assert StreamBit(t, input, 6) == BitOf(28, 5) == 0;
    assert StreamBit(t, input, 7) == BitOf(28, 4) == 1;
    assert StreamBit(t, input, 8) == BitOf(28, 3) == 1;
    assert StreamBit(t, input, 9) == BitOf(28, 2) == 1;
  }

  lemma AcoLiteral(t: Table, input: seq<byte>)
    requires StartsWith(input, [65, 99, 111])
    ensures Bits(t, input, 2, 8) == Success(224)
  {
    SymbolAt(t, input, [65, 99, 111], 1, 28);
    AcoLiteralBits0(t, input);
    AcoLiteralBits1(t, input);
    assert BitsValue(t, input, 9, 1) == 1;
    assert BitsValue(t, input, 8, 2) == 3;
    assert BitsValue(t, input, 7, 3) == 7;
    assert BitsValue(t, input, 6, 4) == 14;
    assert BitsValue(t, input, 5, 5) == 28;
    assert BitsValue(t, input, 4, 6) == 56;
    assert BitsValue(t, input, 3, 7) == 112;
    assert BitsValue(t, input, 2, 8) == 224;
  }

  lemma AcoSelfReference(t: Table, input: seq<byte>)
    requires StartsWith(input, [65, 99, 111])
    ensures Bits(t, input, 10, 3) == Success(4)
  {
    SymbolAt(t, input, [65, 99, 111], 1, 28);
    SymbolAt(t, input, [65, 99, 111], 2, 40);
    assert StreamBit(t, input, 10) == BitOf(28, 1) == 0;
    assert StreamBit(t, input, 11) == BitOf(28, 0) == 0;
    assert StreamBit(t, input, 12) == BitOf(40, 5) == 1;
    assert BitsValue(t, input, 10, 3) == 4;
  }

  lemma AcoEnd(t: Table, input: seq<byte>)
    requires StartsWith(input, [65, 99, 111])
    ensures Bits(t, input, 13, 3) == Success(2)
  {
    SymbolAt(t, input, [65, 99, 111], 2, 40);
    assert StreamBit(t, input, 13) == BitOf(40, 4) == 0;
    assert StreamBit(t, input, 14) == BitOf(40, 3) == 1;
    assert StreamBit(t, input, 15) == BitOf(40, 2) == 0;
    assert BitsValue(t, input, 13, 3) == 2;
  }

  /** From stream bit 10 on: the self-reference "àà" and the end marker. */
  lemma AcoFromBit10(t: Table, input: seq<byte>, st: State, acc: seq<int>)
    requires StartsWith(input, [65, 99, 111])
    requires Ready(input, st) && st.bitsRead == 10 && st.numBits == 3 && |st.dictionary| == 4
    ensures DecodeFrom(t, input, st, [224], acc) == (acc + [224, 224], None)
  {
    AcoSelfReference(t, input);
    DecodeFromSelfReference(t, input, st, [224], acc);
    var s := ConcatWithFirstRune([224], [224]);
    assert s == [224, 224];
    var next := Extend(st.(bitsRead := st.bitsRead + st.numBits), s);
    assert next.bitsRead == 13 && next.numBits == 3;
    AcoEnd(t, input);
    DecodeFromEnd(t, input, next, s, acc + s);
  }

  /** The first token, the literal 224: the loop starts from stream bit 10. */
  lemma AcoStart(t: Table, input: seq<byte>)
    requires StartsWith(input, [65, 99, 111])
    ensures Ready(input, State(10, Placeholders + [[224]], 4, 3))
    ensures Decoded(t, input) == DecodeFrom(t, input, State(10, Placeholders + [[224]], 4, 3), [224], [224])
  {
    SymbolAt(t, input, [65, 99, 111], 0, 0);
    AcoFirstCode(t, input);
    AcoLiteral(t, input);
    StartsWithLiteral(t, input, 224);
  }

  lemma DecodesAco(t: Table, input: seq<byte>)
    requires StartsWith(input, [65, 99, 111])
    ensures Decoded(t, input) == ([224, 224, 224], None)
  {
    AcoStart(t, input);
    AcoFromBit10(t, input, State(10, Placeholders + [[224]], 4, 3), [224]);
    AcoJoined();
  }

  /** The first token and the rest of the output. */
  lemma AcoJoined()
    ensures [224] + [224, 224] == [224, 224, 224]
  {
  }

  // ---------------------------------------------------------------------
  // "Ac1A" decodes to "àààààà": literal 'à', code 4 ("àà", the next free
  // code), code 5 ("ààà", the next free code again), then the end marker.
  // Symbol values 0, 28, 53, 0.

  lemma Ac1aFirstCode(t: Table, input: seq<byte>)
    requires StartsWith(input, [65, 99, 49, 65])
    ensures Bits(t, input, 0, 2) == Success(0)
  {
    SymbolAt(t, input, [65, 99, 49, 65], 0, 0);
    assert StreamBit(t, input, 0) == BitOf(0, 5) == 0;
    assert StreamBit(t, input, 1) == BitOf(0, 4) == 0;
    assert BitsValue(t, input, 0, 2) == 0;
  }

  lemma Ac1aLiteralBits0(t: Table, input: seq<byte>)
    requires StartsWith(input, [65, 99, 49, 65])
    ensures StreamBit(t, input, 2) == 0
    ensures StreamBit(t, input, 3) == 0
    ensures StreamBit(t, input, 4) == 0
    ensures StreamBit(t, input, 5) == 0
  {
    SymbolAt(t, input, [65, 99, 49, 65], 0, 0);
    assert StreamBit(t, input, 2) == BitOf(0, 3) == 0;
    assert StreamBit(t, input, 3) == BitOf(0, 2) == 0;
    assert StreamBit(t, input, 4) == BitOf(0, 1) == 0;
    assert StreamBit(t, input, 5) == BitOf(0, 0) == 0;
  }

  lemma Ac1aLiteralBits1(t: Table, input: seq<byte>)
    requires StartsWith(input, [65, 99, 49, 65])
    ensures StreamBit(t, input, 6) == 0
    ensures StreamBit(t, input, 7) == 1
    ensures StreamBit(t, input, 8) == 1
    ensures StreamBit(t, input, 9) == 1
  {
    SymbolAt(t, input, [65, 99, 49, 65], 1, 28);
    assert StreamBit(t, input, 6) == BitOf(28, 5) == 0;
    assert StreamBit(t, input, 7) == BitOf(28, 4) == 1;
    assert StreamBit(t, input, 8) == BitOf(28, 3) == 1;
    assert StreamBit(t, input, 9) == BitOf(28, 2) == 1;
  }

  lemma Ac1aLiteral(t: Table, input: seq<byte>)
    requires StartsWith(input, [65, 99, 49, 65])
    ensures Bits(t, input, 2, 8) == Success(224)
  {
    SymbolAt(t, input, [65, 99, 49, 65], 1, 28);
    Ac1aLiteralBits0(t, input);
    Ac1aLiteralBits1(t, input);
    assert BitsValue(t, input, 9, 1) == 1;
    assert BitsValue(t, input, 8, 2) == 3;
    assert BitsValue(t, input, 7, 3) == 7;
    assert BitsValue(t, input, 6, 4) == 14;
    assert BitsValue(t, input, 5, 5) == 28;
    assert BitsValue(t, input, 4, 6) == 56;
    assert BitsValue(t, input, 3, 7) == 112;
    assert BitsValue(t, input, 2, 8) == 224;
  }

  lemma Ac1aSelfReference(t: Table, input: seq<byte>)
    requires StartsWith(input, [65, 99, 49, 65])
    ensures Bits(t, input, 10, 3) == Success(4)
  {
    SymbolAt(t, input, [65, 99, 49, 65], 1, 28);
    SymbolAt(t, input, [65, 99, 49, 65], 2, 53);
    assert StreamBit(t, input, 10) == BitOf(28, 1) == 0;
    assert StreamBit(t, input, 11) == BitOf(28, 0) == 0;
    assert StreamBit(t, input, 12) == BitOf(53, 5) == 1;
    assert BitsValue(t, input, 10, 3) == 4;
  }

  lemma Ac1aSecondSelfReference(t: Table, input: seq<byte>)
    requires StartsWith(input, [65, 99, 49, 65])
    ensures Bits(t, input, 13, 3) == Success(5)
  {
    SymbolAt(t, input, [65, 99, 49, 65], 2, 53);
    assert StreamBit(t, input, 13) == BitOf(53, 4) == 1;
    assert StreamBit(t, input, 14) == BitOf(53, 3) == 0;
    assert StreamBit(t, input, 15) == BitOf(53, 2) == 1;
    assert BitsValue(t, input, 13, 3) == 5;
  }

  lemma Ac1aEnd(t: Table, input: seq<byte>)
    requires StartsWith(input, [65, 99, 49, 65])
    ensures Bits(t, input, 16, 3) == Success(2)
  {
    SymbolAt(t, input, [65, 99, 49, 65], 2, 53);
    SymbolAt(t, input, [65, 99, 49, 65], 3, 0);
    assert StreamBit(t, input, 16) == BitOf(53, 1) == 0;
    assert StreamBit(t, input, 17) == BitOf(53, 0) == 1;
    assert StreamBit(t, input, 18) == BitOf(0, 5) == 0;
    assert BitsValue(t, input, 16, 3) == 2;
  }

  /** From stream bit 13 on: the second self-reference "ààà" and the end
      marker. */
  lemma Ac1aFromBit13(t: Table, input: seq<byte>, st: State, acc: seq<int>)
    requires StartsWith(input, [65, 99, 49, 65])
    requires Ready(input, st) && st.bitsRead == 13 && st.numBits == 3 && |st.dictionary| == 5
    ensures DecodeFrom(t, input, st, [224, 224], acc) == (acc + [224, 224, 224], None)
  {
    Ac1aSecondSelfReference(t, input);
    DecodeFromSelfReference(t, input, st, [224, 224], acc);
    var s := ConcatWithFirstRune([224, 224], [224, 224]);
    assert s == [224, 224, 224];
    var next := Extend(st.(bitsRead := st.bitsRead + st.numBits), s);
    assert next.bitsRead == 16 && next.numBits == 3;
    Ac1aEnd(t, input);
    DecodeFromEnd(t, input, next, s, acc + s);
  }

  /** From stream bit 10 on: the self-reference "àà" and the rest. */
  lemma Ac1aFromBit10(t: Table, input: seq<byte>, st: State, acc: seq<int>)
    requires StartsWith(input, [65, 99, 49, 65])
    requires Ready(input, st) && st.bitsRead == 10 && st.numBits == 3 && |st.dictionary| == 4
    ensures DecodeFrom(t, input, st, [224], acc) == (acc + [224, 224, 224, 224, 224], None)
  {
    Ac1aSelfReference(t, input);
    DecodeFromSelfReference(t, input, st, [224], acc);
    var s := ConcatWithFirstRune([224], [224]);
    assert s == [224, 224];
    var next := Extend(st.(bitsRead := st.bitsRead + st.numBits), s);
    assert next.bitsRead == 13 && next.numBits == 3 && |next.dictionary| == 5;
    Ac1aFromBit13(t, input, next, acc + s);
    assert acc + s + [224, 224, 224] == acc + [224, 224, 224, 224, 224];
  }

  /** The first token, the literal 224: the loop starts from stream bit 10. */
  lemma Ac1aStart(t: Table, input: seq<byte>)
    requires StartsWith(input, [65, 99, 49, 65])
    ensures Ready(input, State(10, Placeholders + [[224]], 4, 3))
    ensures Decoded(t, input) == DecodeFrom(t, input, State(10, Placeholders + [[224]], 4, 3), [224], [224])
  {
    SymbolAt(t, input, [65, 99, 49, 65], 0, 0);
    Ac1aFirstCode(t, input);
    Ac1aLiteral(t, input);
    StartsWithLiteral(t, input, 224);
  }

  lemma DecodesAc1a(t: Table, input: seq<byte>)
    requires StartsWith(input, [65, 99, 49, 65])
    ensures Decoded(t, input) == ([224, 224, 224, 224, 224, 224], None)
  {
    Ac1aStart(t, input);
    Ac1aFromBit10(t, input, State(10, Placeholders + [[224]], 4, 3), [224]);
    Ac1aJoined();
  }

  /** The first token and the rest of the output. */
  lemma Ac1aJoined()
    ensures [224] + [224, 224, 224, 224, 224] == [224, 224, 224, 224, 224, 224]
  {
  }

  // ---------------------------------------------------------------------
  // "C4e1Q" / "C4e1Q===" decode to "toto": literal 't', code 0 and the
  // literal 'o' (a literal inside the loop, which adds "o" and then "to"),
  // code 5 (the entry "to"), then the end marker. Symbol values 2, 56, 30,
  // 53, 16.

  lemma C4e1qFirstCode(t: Table, input: seq<byte>)
    requires StartsWith(input, [67, 52, 101, 49, 81])
    ensures Bits(t, input, 0, 2) == Success(0)
  {
    SymbolAt(t, input, [67, 52, 101, 49, 81], 0, 2);
    assert StreamBit(t, input, 0) == BitOf(2, 5) == 0;
    assert StreamBit(t, input, 1) == BitOf(2, 4) == 0;
    assert BitsValue(t, input, 0, 2) == 0;
  }

  lemma C4e1qLiteralBits0(t: Table, input: seq<byte>)
    requires StartsWith(input, [67, 52, 101, 49, 81])
    ensures StreamBit(t, input, 2) == 0
    ensures StreamBit(t, input, 3) == 0
    ensures StreamBit(t, input, 4) == 1
    ensures StreamBit(t, input, 5) == 0
  {
    SymbolAt(t, input, [67, 52, 101, 49, 81], 0, 2);
    assert StreamBit(t, input, 2) == BitOf(2, 3) == 0;
    assert StreamBit(t, input, 3) == BitOf(2, 2) == 0;
    assert StreamBit(t, input, 4) == BitOf(2, 1) == 1;
    assert StreamBit(t, input, 5) == BitOf(2, 0) == 0;
  }

  lemma C4e1qLiteralBits1(t: Table, input: seq<byte>)
    requires StartsWith(input, [67, 52, 101, 49, 81])
    ensures StreamBit(t, input, 6) == 1
    ensures StreamBit(t, input, 7) == 1
    ensures StreamBit(t, input, 8) == 1
    ensures StreamBit(t, input, 9) == 0
  {
    SymbolAt(t, input, [67, 52, 101, 49, 81], 1, 56);
    assert StreamBit(t, input, 6) == BitOf(56, 5) == 1;
    assert StreamBit(t, input, 7) == BitOf(56, 4) == 1;
    assert StreamBit(t, input, 8) == BitOf(56, 3) == 1;
    assert StreamBit(t, input, 9) == BitOf(56, 2) == 0;
  }

  lemma C4e1qLiteral(t: Table, input: seq<byte>)
    requires StartsWith(input, [67, 52, 101, 49, 81])
    ensures Bits(t, input, 2, 8) == Success(116)
  {
    SymbolAt(t, input, [67, 52, 101, 49, 81], 1, 56);
    C4e1qLiteralBits0(t, input);
    C4e1qLiteralBits1(t, input);
    assert BitsValue(t, input, 9, 1) == 0;
    assert BitsValue(t, input, 8, 2) == 1;
    assert BitsValue(t, input, 7, 3) == 3;
    assert BitsValue(t, input, 6, 4) == 7;
    assert BitsValue(t, input, 5, 5) == 14;
    assert BitsValue(t, input, 4, 6) == 29;
    assert BitsValue(t, input, 3, 7) == 58;
    assert BitsValue(t, input, 2, 8) == 116;
  }

  lemma C4e1qSecondCode(t: Table, input: seq<byte>)
    requires StartsWith(input, [67, 52, 101, 49, 81])
    ensures Bits(t, input, 10, 3) == Success(0)
  {
    SymbolAt(t, input, [67, 52, 101, 49, 81], 1, 56);
    SymbolAt(t, input, [67, 52, 101, 49, 81], 2, 30);
    assert StreamBit(t, input, 10) == BitOf(56, 1) == 0;
    assert StreamBit(t, input, 11) == BitOf(56, 0) == 0;
    assert StreamBit(t, input, 12) == BitOf(30, 5) == 0;
    assert BitsValue(t, input, 10, 3) == 0;
  }

  lemma C4e1qSecondLiteralBits2(t: Table, input: seq<byte>)
    requires StartsWith(input, [67, 52, 101, 49, 81])
    ensures StreamBit(t, input, 13) == 1
    ensures StreamBit(t, input, 14) == 1
    ensures StreamBit(t, input, 15) == 1
    ensures StreamBit(t, input, 16) == 1
    ensures StreamBit(t, input, 17) == 0
  {
    SymbolAt(t, input, [67, 52, 101, 49, 81], 2, 30);
    assert StreamBit(t, input, 13) == BitOf(30, 4) == 1;
    assert StreamBit(t, input, 14) == BitOf(30, 3) == 1;
    assert StreamBit(t, input, 15) == BitOf(30, 2) == 1;
    assert StreamBit(t, input, 16) == BitOf(30, 1) == 1;
    assert StreamBit(t, input, 17) == BitOf(30, 0) == 0;
  }

  lemma C4e1qSecondLiteralBits3(t: Table, input: seq<byte>)
    requires StartsWith(input, [67, 52, 101, 49, 81])
    ensures StreamBit(t, input, 18) == 1
    ensures StreamBit(t, input, 19) == 1
    ensures StreamBit(t, input, 20) == 0
  {
    SymbolAt(t, input, [67, 52, 101, 49, 81], 3, 53);
    assert StreamBit(t, input, 18) == BitOf(53, 5) == 1;
    assert StreamBit(t, input, 19) == BitOf(53, 4) == 1;
    assert StreamBit(t, input, 20) == BitOf(53, 3) == 0;
  }

  lemma C4e1qSecondLiteral(t: Table, input: seq<byte>)
    requires StartsWith(input, [67, 52, 101, 49, 81])
    ensures Bits(t, input, 13, 8) == Success(111)
  {
    SymbolAt(t, input, [67, 52, 101, 49, 81], 3, 53);
    C4e1qSecondLiteralBits2(t, input);
    C4e1qSecondLiteralBits3(t, input);
    assert BitsValue(t, input, 20, 1) == 0;
    assert BitsValue(t, input, 19, 2) == 1;
    assert BitsValue(t, input, 18, 3) == 3;
    assert BitsValue(t, input, 17, 4) == 6;
    assert BitsValue(t, input, 16, 5) == 13;
    assert BitsValue(t, input, 15, 6) == 27;
    assert BitsValue(t, input, 14, 7) == 55;
    assert BitsValue(t, input, 13, 8) == 111;
  }

  lemma C4e1qBackReference(t: Table, input: seq<byte>)
    requires StartsWith(input, [67, 52, 101, 49, 81])
    ensures Bits(t, input, 21, 3) == Success(5)
  {
    SymbolAt(t, input, [67, 52, 101, 49, 81], 3, 53);
    SymbolAt(t, input, [67, 52, 101, 49, 81], 4, 16);
    assert StreamBit(t, input, 21) == BitOf(53, 2) == 1;
    assert StreamBit(t, input, 22) == BitOf(53, 1) == 0;
    assert StreamBit(t, input, 23) == BitOf(53, 0) == 1;
    assert BitsValue(t, input, 21, 3) == 5;
  }

  lemma C4e1qEnd(t: Table, input: seq<byte>)
    requires StartsWith(input, [67, 52, 101, 49, 81])
    ensures Bits(t, input, 24, 3) == Success(2)
  {
    SymbolAt(t, input, [67, 52, 101, 49, 81], 4, 16);
    assert StreamBit(t, input, 24) == BitOf(16, 5) == 0;
    assert StreamBit(t, input, 25) == BitOf(16, 4) == 1;
    assert StreamBit(t, input, 26) == BitOf(16, 3) == 0;
    assert BitsValue(t, input, 24, 3) == 2;
  }

  /** From stream bit 21 on: the back-reference "to" and the end marker. */
  lemma C4e1qFromBit21(t: Table, input: seq<byte>, st: State, acc: seq<int>)
    requires StartsWith(input, [67, 52, 101, 49, 81])
    requires Ready(input, st) && st.bitsRead == 21 && st.numBits == 3
    requires |st.dictionary| == 6 && st.dictionary[5] == [116, 111]
    ensures DecodeFrom(t, input, st, [111], acc) == (acc + [116, 111], None)
  {
    C4e1qBackReference(t, input);
    DecodeFromEntry(t, input, st, [111], acc, 5);
    var s := st.dictionary[5];
    var next := Extend(st.(bitsRead := st.bitsRead + st.numBits), ConcatWithFirstRune([111], s));
    assert next.bitsRead == 24 && next.numBits == 3;
    C4e1qEnd(t, input);
    DecodeFromEnd(t, input, next, s, acc + s);
  }

  /** From stream bit 10 on: the literal "o" inside the loop and the rest. */
  lemma C4e1qFromBit10(t: Table, input: seq<byte>, st: State, acc: seq<int>)
    requires StartsWith(input, [67, 52, 101, 49, 81])
    requires Ready(input, st) && st.bitsRead == 10 && st.numBits == 3 && |st.dictionary| == 4
    ensures DecodeFrom(t, input, st, [116], acc) == (acc + [111, 116, 111], None)
  {
    C4e1qSecondCode(t, input);
    C4e1qSecondLiteral(t, input);
    DecodeFromLiteral(t, input, st, [116], acc, 111);
    var lo := [RuneOf(111)];
    assert lo == [111];
    var entry := ConcatWithFirstRune([116], lo);
    assert entry == [116, 111];
    var next := Extend(Extend(st.(bitsRead := st.bitsRead + st.numBits + 8), lo), entry);
    assert next.bitsRead == 21 && next.numBits == 3;
    assert |next.dictionary| == 6 && next.dictionary[5] == entry;
    C4e1qFromBit21(t, input, next, acc + lo);
    assert acc + lo + [116, 111] == acc + [111, 116, 111];
  }

  /** The first token, the literal 116: the loop starts from stream bit 10. */
  lemma C4e1qStart(t: Table, input: seq<byte>)
    requires StartsWith(input, [67, 52, 101, 49, 81])
    ensures Ready(input, State(10, Placeholders + [[116]], 4, 3))
    ensures Decoded(t, input) == DecodeFrom(t, input, State(10, Placeholders + [[116]], 4, 3), [116], [116])
  {
    SymbolAt(t, input, [67, 52, 101, 49, 81], 0, 2);
    C4e1qFirstCode(t, input);
    C4e1qLiteral(t, input);
    StartsWithLiteral(t, input, 116);
  }

  lemma DecodesC4e1q(t: Table, input: seq<byte>)
    requires StartsWith(input, [67, 52, 101, 49, 81])
    ensures Decoded(t, input) == ([116, 111, 116, 111], None)
  {
    C4e1qStart(t, input);
    C4e1qFromBit10(t, input, State(10, Placeholders + [[116]], 4, 3), [116]);
    C4e1qJoined();
  }

  /** The first token and the rest of the output. */
  lemma C4e1qJoined()
    ensures [116] + [111, 116, 111] == [116, 111, 116, 111]
  {
  }

  // ---------------------------------------------------------------------
  // "I" alone: the first code (0, a literal) fits in the one symbol, but the
  // literal needs the next symbol, which is not there. Go indexes past the
  // end of the input and panics; the model reports OutOfInput.

  lemma TruncatedFirstCode(t: Table, input: seq<byte>)
    requires |input| == 1 && input[0] == 73
    ensures Lookup(t, input[0]) == Some(8)
    ensures Bits(t, input, 0, 2) == Success(0)
  {
    assert Fetch(t, input, 0) == Success(8);
    assert StreamBit(t, input, 0) == BitOf(8, 5) == 0;
    assert StreamBit(t, input, 1) == BitOf(8, 4) == 0;
    assert BitsValue(t, input, 0, 2) == 0;
  }

  lemma TruncatedLiteral(t: Table, input: seq<byte>)
    requires |input| == 1
    ensures Bits(t, input, 2, 8) == Failure(OutOfInput)
  {
    assert Fetch(t, input, 1) == Failure(OutOfInput);
    BitsFailAt(t, input, 2, 8, 1);
  }

  lemma TruncatedInput(t: Table)
    ensures Decoded(t, [73]) == ([], Some(OutOfInput))
  {
    var input: seq<byte> := [73];
    TruncatedFirstCode(t, input);
    TruncatedLiteral(t, input);
    var after := Initial.(bitsRead := 2);
    assert NextToken(t, input, Initial, []) == Dispatch(t, input, after, [], 0);
    assert Dispatch(t, input, after, [], 0) == Literal(t, input, after, 8);
    assert Literal(t, input, after, 8).0 == Failed(OutOfInput);
    DecodedStart(t, input);
  }
}
