/** The decompressor as the source writes it: a mutable decoder record
    (`dataStruct`) updated step by step by `readBits`, `appendValue` and
    `getString`, and the driver `decompress` with its two public entry points.
    Each method is proved to compute the reference functions of BitStream and
    Decoding. */
module LzString {
  import opened Wrappers
  import opened Alphabet
  import opened Runes
  import opened BitStream
  import opened Decoding

  /** `getBaseValue`: the value of a symbol is its position in the table's
      key string; a symbol not in the key string has none. */
  function GetBaseValue(symbol: byte, table: Table): (r: Option<nat>)
    ensures r.Some? ==> r.value < 65 && KeyString(table)[r.value] as int == symbol as int
    ensures r.None? ==> forall v :: 0 <= v < 65 ==> KeyString(table)[v] as int != symbol as int
  {
    var r := Lookup(table, symbol);
    forall v | 0 <= v < 65 {
      LookupIsKeyStringIndex(table, symbol, v);
    }
    r
  }

  /** `val & position > 0` for a power-of-two mask `position`: whether the
      bit that `position` selects is set in `val`. */
  function MaskTest(val: nat, position: nat): bool
    decreases position
  {
    if position <= 1 then val % 2 == 1 else MaskTest(val / 2, position / 2)
  }

  /** The bit the mask selects is the stream bit under the cursor. */
  lemma MaskTestIsStreamBit(t: Table, input: seq<byte>, k: nat, val: nat, position: nat)
    requires Fetch(t, input, k / 6) == Success(val) && position == Pow2(5 - k % 6)
    ensures MaskTest(val, position) <==> StreamBit(t, input, k) == 1
  {
    MaskTestIsBitOf(val, 5 - k % 6);
  }

  lemma {:induction false} MaskTestIsBitOf(v: nat, j: nat)
    ensures MaskTest(v, Pow2(j)) <==> BitOf(v, j) == 1
  {
    if j > 0 {
      MaskTestIsBitOf(v / 2, j - 1);
      assert Pow2(j) / 2 == Pow2(j - 1);
    }
  }

  /** Moving the bit cursor on by one bit: the mask halves, and from the last
      bit of a symbol (mask 1) it falls to 0 and the next symbol begins. */
  lemma CursorStep(b: nat)
    ensures b % 6 < 5 ==> (b + 1) / 6 == b / 6 && (b + 1) % 6 == b % 6 + 1
    ensures b % 6 < 5 ==> Pow2(5 - b % 6) / 2 == Pow2(5 - (b + 1) % 6)
    ensures b % 6 == 5 ==> (b + 1) / 6 == b / 6 + 1 && (b + 1) % 6 == 0
    ensures b % 6 == 5 ==> Pow2(5 - b % 6) / 2 == 0
  {
  }

  /** `dataStruct`. The table is kept with the record rather than passed to
      every call. `bitsRead` is a proof-only counter of the bits consumed. */
  class Decoder {
    const input: seq<byte>
    const table: Table
    var val: nat
    var position: int
    var index: int
    var dictionary: seq<seq<int>>
    var enlargeIn: int
    var numBits: nat
    ghost var bitsRead: nat

    /** The bit cursor: `val` is the value of symbol index-1, which holds
        stream bit `bitsRead`, and `position` is the mask of that bit. */
    ghost predicate Valid()
      reads this`val, this`position, this`index, this`bitsRead
    {
      1 <= index <= |input| &&
      bitsRead / 6 == index - 1 &&
      position == Pow2(5 - bitsRead % 6) &&
      Fetch(table, input, index - 1) == Success(val)
    }

    ghost function Abstract(): State
      reads this`bitsRead, this`dictionary, this`enlargeIn, this`numBits
    {
      State(bitsRead, dictionary, enlargeIn, numBits)
    }

    /** The record literal of `decompress`: `first` is the value of the first
        symbol, which the driver has already looked up. */
    constructor (input: seq<byte>, table: Table, first: nat)
      requires |input| >= 1 && Lookup(table, input[0]) == Some(first)
      ensures this.input == input && this.table == table
      ensures Valid() && Abstract() == Initial
    {
      this.input := input;
      this.table := table;
      val := first;
      position := 32;
      index := 1;
      dictionary := Placeholders;
      enlargeIn := 5;
      numBits := 2;
      bitsRead := 0;
    }

    /** One pass of the loop of `readBits` up to the accumulation: test the
        bit under the cursor, move the cursor on, and after the last bit of a
        symbol fetch the next symbol. */
    method NextBit() returns (bit: bool, err: Option<Error>)
      requires Valid()
      modifies this`val, this`position, this`index, this`bitsRead
      ensures bitsRead == old(bitsRead) + 1
      ensures err.None? ==> Valid() && (bit <==> StreamBit(table, input, old(bitsRead)) == 1)
      ensures err.None? ==> index == old(index) || index == old(index) + 1
      ensures err.None? ==> (index == old(index) + 1 <==> bitsRead % 6 == 0)
      ensures err.Some? ==> bitsRead / 6 == old(index) && Fetch(table, input, old(index)) == Failure(err.value)
    {
      bit := MaskTest(val, position);
      MaskTestIsStreamBit(table, input, bitsRead, val, position);
      CursorStep(bitsRead);
      position := position / 2;
      bitsRead := bitsRead + 1;
      if position == 0 {
        assert Pow2(5) == 32;
        position := 32;
        if index >= |input| {
          // Go indexes past the end of the input and panics
          return bit, Some(OutOfInput);
        }
        var v := GetBaseValue(input[index], table);
        if v.None? {
          val := 0;
          return bit, Some(IllegalCharacter);
        }
        val := v.value;
        index := index + 1;
      }
      return bit, None;
    }

    /** `readBits`: the next `nb` stream bits, least significant first. On
        success exactly `nb` bits are consumed. */
    method ReadBits(nb: nat) returns (r: Result<nat, Error>)
      requires Valid()
      modifies this`val, this`position, this`index, this`bitsRead
      ensures r == Bits(table, input, old(bitsRead), nb)
      ensures r.Success? ==> Valid() && bitsRead == old(bitsRead) + nb
    {
      ghost var start := bitsRead;
      var result := 0;
      var power := 1;
      for i := 0 to nb
        invariant Valid()
        invariant bitsRead == start + i
        invariant power == Pow2(i)
        invariant result == BitsValue(table, input, start, i)
        invariant forall s :: start / 6 < s < index ==> Fetch(table, input, s).Success?
      {
        ghost var fetched := index;
        var bitSet, err := NextBit();
        if err.Some? {
          BitsFailAt(table, input, start, nb, fetched);
          return Failure(err.value);
        }
        assert index == fetched || Fetch(table, input, fetched).Success?;
        BitsValueSnoc(table, input, start, i);
        // `result |= power`: bit i of `result` is still clear
        if bitSet {
          result := result + power;
        }
        power := power * 2;
      }
      BitsSucceed(table, input, start, nb);
      return Success(result);
    }

    /** `appendValue`. */
    method AppendValue(s: seq<int>)
      modifies this`dictionary, this`enlargeIn, this`numBits
      ensures Abstract() == Extend(old(Abstract()), s)
    {
      dictionary := dictionary + [s];
      enlargeIn := enlargeIn - 1;
      if enlargeIn == 0 {
        enlargeIn := Pow2(numBits);
        numBits := numBits + 1;
      }
    }

    /** A literal of `width` bits, added to the dictionary as a one-character
        entry: the body shared by codes 0 and 1 of `getString`. */
    method ReadLiteral(width: nat) returns (o: Outcome)
      requires Valid()
      modifies this
      ensures o == Decoding.Literal(table, input, old(Abstract()), width).0
      ensures !o.Failed? ==> Valid() && Abstract() == Decoding.Literal(table, input, old(Abstract()), width).1
    {
      var lit := ReadBits(width);
      if lit.Failure? {
        return Failed(lit.error);
      }
      var s := [RuneOf(lit.value)];
      AppendValue(s);
      return Token(s);
    }

    /** `getString`: one token, the end marker or an error. */
    method GetString(last: seq<int>) returns (o: Outcome)
      requires Valid()
      modifies this
      ensures o == NextToken(table, input, old(Abstract()), last).0
      ensures !o.Failed? ==> Valid() && Abstract() == NextToken(table, input, old(Abstract()), last).1
    {
      ghost var before := Abstract();
      var code := ReadBits(numBits);
      if code.Failure? {
        return Failed(code.error);
      }
      var c := code.value;
      assert NextToken(table, input, before, last) == Dispatch(table, input, Abstract(), last, c);
      if c == 0 {
        o := ReadLiteral(8);
      } else if c == 1 {
        o := ReadLiteral(16);
      } else if c == 2 {
        o := EndMarker;
      } else if c < |dictionary| {
        o := Token(dictionary[c]);
      } else if c == |dictionary| {
        o := Token(ConcatWithFirstRune(last, last));
      } else {
        o := Failed(BadCharacterEncoding);
      }
    }
  }

  /** `decompress`: the decoded text and the error that stopped it (None at
      the end marker). */
  method Decompress(input: seq<byte>, table: Table) returns (text: seq<int>, err: Option<Error>)
    ensures (text, err) == Decoded(table, input)
  {
    if |input| == 0 {
      return [], None;
    }
    var first := GetBaseValue(input[0], table);
    if first.None? {
      return [], Some(IllegalCharacter);
    }
    var data := new Decoder(input, table, first.value);
    var o := data.GetString([]);
    ghost var step := NextToken(table, input, Initial, []);
    assert o == step.0;
    DecodedStart(table, input);
    if !o.Token? {
      return [], if o.Failed? then Some(o.error) else None;
    }
    ghost var st1 := step.1.(numBits := step.1.numBits + 1);
    assert Ready(input, st1) && Decoded(table, input) == DecodeFrom(table, input, st1, o.text, o.text);
    assert data.Abstract() == step.1;
    data.numBits := data.numBits + 1;
    assert data.Abstract() == st1;
    text, err := Drive(data, o.text);
  }

  /** The loop of `decompress`: each token is added to the output and the
      entry `last + firstRune(token)` to the dictionary, until the end marker
      or an error. */
  method Drive(data: Decoder, first: seq<int>) returns (text: seq<int>, err: Option<Error>)
    requires data.Valid() && Ready(data.input, data.Abstract())
    modifies data
    ensures (text, err) == DecodeFrom(data.table, data.input, old(data.Abstract()), first, first)
  {
    var result, last := first, first;
    ghost var goal := DecodeFrom(data.table, data.input, data.Abstract(), last, result);
    while true
      invariant data.Valid() && Ready(data.input, data.Abstract())
      invariant DecodeFrom(data.table, data.input, data.Abstract(), last, result) == goal
      decreases 6 * |data.input| - data.bitsRead
    {
      ghost var before := data.Abstract();
      var o := data.GetString(last);
      if !o.Token? {
        DecodeFromStop(data.table, data.input, before, last, result);
        return result, if o.Failed? then Some(o.error) else None;
      }
      var str := o.text;
      DecodeFromStep(data.table, data.input, before, last, result);
      result := result + str;
      data.AppendValue(ConcatWithFirstRune(last, str));
      last := str;
    }
  }

  /** `DecompressFromEncodedUriComponent`. */
  method DecompressFromEncodedUriComponent(input: seq<byte>) returns (text: seq<int>, err: Option<Error>)
    ensures (text, err) == Decoded(UriSafe, input)
  {
    text, err := Decompress(input, UriSafe);
  }

  /** `DecompressFromBase64`. */
  method DecompressFromBase64(input: seq<byte>) returns (text: seq<int>, err: Option<Error>)
    ensures (text, err) == Decoded(Base64, input)
  {
    text, err := Decompress(input, Base64);
  }
}
