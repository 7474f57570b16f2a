# lz-string decompression, modelled in Dafny

A model of `lz-string.go`, a Go decompressor for pieroxy's lz-string format.
lz-string is an LZW-style scheme whose output is written as printable text.
The input is a string of symbols from one of two 65-symbol alphabets:

- the URI-safe table, whose last three symbols are `+ - $`;
- the Base64 table, whose last three symbols are `+ / =`.

Each symbol carries six bits. The bit stream they form is read in codes of
a growing width. Each code is one of:

- a literal character of 8 or 16 bits;
- the end marker;
- a reference to an earlier dictionary entry;
- the self-referential "next free entry" code.

After every token but the first the decoder adds `last + firstRune(token)`
to the dictionary.

The project has three layers.

- **The bit stream and the decoder as pure functions.**
  - `BitStream.Bits` is what `readBits` yields at any point of the stream.
  - `Decoding.Extend` is `appendValue`.
  - `Decoding.NextToken` is `getString`.
  - `Decoding.DecodeFrom` is the driver loop.
  - `Decoding.Decoded` is `decompress`.
  - Lemmas prove what the source promises of them: bounds, error causes, how
    each code is answered, the dictionary-width invariant, and that the
    output is well-formed text.
- **The decoder as the source writes it.** Class `LzString.Decoder` is
  `dataStruct`, holding `val`, `position`, `index`, `dictionary`, `enlargeIn`
  and `numBits`. Its methods update those fields step by step, as `readBits`,
  `appendValue` and `getString` do. `LzString.Decompress` and its loop
  `Drive` are the driver. Each method is proved to compute the matching pure
  function.
- **Concrete decodings.** Module `Fixtures` works the test strings of
  `lz-string_test.go` through the pure layer, for both tables.

Output text is a sequence of Unicode code points (`seq<int>`). The input is a
sequence of bytes.

Files:

- `wrappers.dfy`: `Option` and `Result`.
- `alphabet.dfy`: the two tables.
- `runes.dfy`: `string(int)`, the first rune, and `concatWithFirstRune`.
- `bitstream.dfy`: the reference bit reader.
- `decoding.dfy`: the reference decoder.
- `lzstring.dfy`: the class and the entry points.
- `fixtures.dfy`: the test strings.

Errors are an enum with three values.

- `IllegalCharacter` is "Illegal character encountered.".
- `BadCharacterEncoding` is "Bad character encoding.".
- `OutOfInput` stands for the Go runtime panic at `lz-string.go:46`. The
  source panics there when the reader needs a symbol past the end of the
  input, which happens on truncated input.

The error at `lz-string.go:133`, "Unexpected end of buffer reached.", is
never returned: the loop at lines 122-131 has no exit but its returns. Input
that runs out makes the refill at line 46 index past the end, which panics;
the model reports that as the outcome `OutOfInput`.

## Model

| member | source | states |
|---|---|---|
| Alphabet.LookupIsKeyStringIndex | lz-string.go:15-19 | a symbol's table value is exactly its position in the table's 65-character key string: lookup and indexing the key string are inverse |
| Alphabet.TablesShareOtherSymbols | lz-string.go:16-19 | the two tables agree on every byte except `-`, `$`, `/` and `=`, and differ on those four |
| Alphabet.LookupBound | lz-string.go:16-19 | every table value lies in 0..64 |
| LzString.GetBaseValue | lz-string.go:31-34 | returns the symbol's position in the key string when it has one, and nothing exactly when no position of the key string holds the symbol |
| Runes.RuneOf | lz-string.go:79-86 | `string(v)` of a scalar value is that code point, and of anything else U+FFFD; the result is always a scalar value |
| Runes.FirstRune | lz-string.go:102 | the first code point of a non-empty string, U+FFFD for the empty string; a scalar value for well-formed text |
| Runes.ConcatWithFirstRune | lz-string.go:101-104 | the result is `s` unchanged followed by exactly one code point, the first rune of the second argument; it is well-formed text when both arguments are |
| BitStream.BitsValueBound | lz-string.go:37-57 | an `nb`-bit read yields a number below 2^nb |
| BitStream.BitsValueBit | lz-string.go:51-54 | bit i of the value read is stream bit c+i: the first bit read lands in the least significant place |
| BitStream.BitsValueSnoc | lz-string.go:51-54 | reading one more bit adds that bit at the next power of two, as `result \|= power; power *= 2` does |
| BitStream.NoBadSymbolIff | lz-string.go:43-48 | no refill in a range fails exactly when every symbol of the range is present and in the table |
| BitStream.FirstBadSymbolAt | lz-string.go:43-48 | a bad symbol after a clean stretch is the failure reported for any longer range |
| BitStream.BitsSucceedsIff | lz-string.go:37-57 | a read of `nb` bits from bit c succeeds exactly when symbols c/6+1 .. (c+nb)/6 are all present and in the table, and then yields a value below 2^nb |
| BitStream.BitsFailAt | lz-string.go:43-48 | a read fails with the error of the first needed symbol that is missing or not in the table |
| BitStream.BitsSucceed | lz-string.go:37-57 | a read whose symbols are all present and in the table yields the stream bits |
| BitStream.BitsFailure | lz-string.go:43-48 | a failed refill reports OutOfInput only past the end of the input, and IllegalCharacter only where some symbol in the range is not in the table |
| BitStream.PaddingSymbolIsZeroBits | lz-string.go:41 | a symbol of value 64 (`$` or `=`) supplies six zero bits, since the masks cover only 32 down to 1 |
| BitStream.BitsStayInInput | lz-string.go:43-49 | after a successful read from a fetched symbol, the reader again stands on a fetched symbol inside the input |
| BitStream.BitsErrorIsAboutSymbols | lz-string.go:37-57 | `readBits` never fails with BadCharacterEncoding |
| LzString.MaskTestIsStreamBit | lz-string.go:41 | `val & position > 0`, with `position` at the cursor's mask, is exactly the stream bit under the cursor |
| LzString.MaskTestIsBitOf | lz-string.go:41 | masking with 2^j tests bit j |
| LzString.CursorStep | lz-string.go:42-44 | halving the mask moves to the next bit of the symbol, and after the last bit (mask 1) it reaches 0 exactly when the next symbol begins |
| LzString.Decoder.constructor | lz-string.go:114 | the record starts on the first symbol's value with mask 32 and index 1, holds the placeholders "0" "1" "2", a countdown of 5 and 2-bit codes, and nothing is consumed |
| LzString.Decoder.NextBit | lz-string.go:41-50 | one turn of the read loop consumes one bit and returns the stream bit under the cursor; it advances `index` exactly when a symbol is completed, and otherwise fails with the error of the symbol it could not fetch |
| LzString.Decoder.ReadBits | lz-string.go:37-57 | returns exactly the reference read `Bits` of the next `nb` stream bits, and on success has consumed exactly `nb` bits, with `position` a power of two from 1 to 32 over the current symbol |
| LzString.Decoder.AppendValue | lz-string.go:59-66 | the new state is `Extend` of the old one |
| Decoding.Extend | lz-string.go:59-66 | the new entry goes at the end and earlier entries are unchanged; the countdown drops by one, or restarts at 2^numBits when it was at 1; the width grows by one bit exactly when the countdown was at 1, and never shrinks; the invariant `len(dictionary) + enlargeIn == 2^numBits, enlargeIn >= 1` is preserved |
| LzString.Decoder.ReadLiteral | lz-string.go:74-87 | the outcome and new state of one 8- or 16-bit literal are those of the reference `Literal` |
| LzString.Decoder.GetString | lz-string.go:68-98 | the outcome of one `getString` is the reference `NextToken`, and on success so is the new state |
| Decoding.LiteralEffect | lz-string.go:74-87 | a literal that is read is `string(v)` of the `width`-bit value `v`; it consumes `width` bits, stays inside the input, and appends itself, one well-formed character, to the dictionary |
| Decoding.DispatchEffect | lz-string.go:73-97 | acting on a code either leaves the dictionary alone or appends the token, a single character |
| Decoding.NextTokenEffect | lz-string.go:68-98 | a successful `getString` consumes at least `numBits` bits, stays inside the input, and leaves the dictionary alone or appends a one-character token |
| Decoding.DispatchCodes | lz-string.go:73-97 | the end marker comes exactly from code 2 and BadCharacterEncoding exactly from a code past the next free entry; a token that adds nothing is `dictionary[c]` for 3 <= c < len, never a placeholder, or `last + firstRune(last)` for c == len; a token that adds an entry is a one-character literal from code 0 or 1 |
| Decoding.NextTokenCodes | lz-string.go:68-98 | a failed code read is reported as its own error with the state unchanged; the end marker and BadCharacterEncoding come exactly from the codes above |
| Decoding.LiteralDispatch | lz-string.go:74-80 | code 0 followed by an 8-bit read of `v` yields the token `string(v)` and appends it |
| Decoding.WideLiteralDispatch | lz-string.go:81-87 | code 1 followed by a 16-bit read of `v` yields the token `string(v)` and appends it, after 16 bits |
| Decoding.SurrogateLiteral | lz-string.go:81-87 | a 16-bit literal in the surrogate range D800..DFFF yields and stores U+FFFD |
| Decoding.LiteralToken | lz-string.go:69-80 | a `getString` whose code is 0 and whose literal is `v` yields `string(v)` after consuming the code and 8 bits |
| Decoding.FirstSelfReference | lz-string.go:94-95 | a first code of 3 is the self-referential case: with `last` empty the token is the lone character U+FFFD |
| Decoding.NextTokenIllegal | lz-string.go:43-48 | a `getString` that reports IllegalCharacter has met a symbol of the input that is not in the table |
| Decoding.DispatchIllegal | lz-string.go:74-87 | a literal read that reports IllegalCharacter has met a symbol of the input that is not in the table |
| Decoding.StepKeepsReady | lz-string.go:122-131 | one iteration of the loop preserves `len(dictionary) + enlargeIn == 2^numBits`, `enlargeIn >= 1` and the reader standing inside the input, and consumes at least one bit |
| Decoding.StepKeepsText | lz-string.go:122-131 | each token and each entry added by an iteration is well-formed text |
| Decoding.DecodeFromStep | lz-string.go:122-131 | after a token `s` the loop continues with `s` appended to the output, `last` set to `s` and `last + firstRune(s)` appended to the dictionary |
| Decoding.DecodeFromStop | lz-string.go:123-126 | the loop returns the output so far with no error at the end marker, and with the error when a step fails |
| Decoding.DecodeFromEnd | lz-string.go:122-131 | a code 2 ends the loop with the output so far and no error |
| Decoding.DecodeFromLiteral | lz-string.go:122-131 | a code-0 literal `v` in the loop outputs `string(v)`; it appends that character and then `last + firstRune(string(v))` |
| Decoding.DecodeFromEntry | lz-string.go:122-131 | a code 3 <= c < len outputs `dictionary[c]` and appends `last + firstRune(dictionary[c])` |
| Decoding.DecodeFromSelfReference | lz-string.go:122-131 | the code `len(dictionary)` outputs `last + firstRune(last)` and appends that same string |
| Decoding.DecodeFromText | lz-string.go:122-131 | the loop only appends to the output it was given, and what it appends is well-formed text |
| Decoding.DecodedStart | lz-string.go:106-121 | for a non-empty input whose first symbol is in the table: a failed first token gives ("", error), an end marker gives ("", nil), and a token starts the loop one bit wider with the token as output and `last` |
| Decoding.DecodedFirstLiteral | lz-string.go:114-121 | a first code 0 with literal `v` starts the loop from bit 10 with `string(v)` as entry 3, a countdown of 4 and 3-bit codes |
| Decoding.FirstTokenMakesReady | lz-string.go:114-121 | after the first token and the bump at line 121 the loop invariant `len(dictionary) + enlargeIn == 2^numBits, enlargeIn >= 1` holds |
| Decoding.FirstTokenIsText | lz-string.go:116-120 | the first token and the dictionary after it are well-formed text |
| Decoding.DecodedIsText | lz-string.go:106-131 | the output of `decompress` is always well-formed text |
| Decoding.DecodedIllegal | lz-string.go:106-131 | `decompress` reports IllegalCharacter only when the input holds a symbol that is not in the table |
| LzString.Decompress | lz-string.go:106-121 | returns exactly `Decoded`: ("", nil) for empty input, ("", IllegalCharacter) for an unknown first symbol, otherwise the first token and the loop |
| LzString.Drive | lz-string.go:122-131 | the loop returns exactly `DecodeFrom` of the state it starts in |
| LzString.DecompressFromEncodedUriComponent | lz-string.go:136-138 | `decompress` with the URI-safe table |
| LzString.DecompressFromBase64 | lz-string.go:140-142 | `decompress` with the Base64 table |
| Fixtures.StartsWithLiteral | lz-string.go:114-121 | an input whose first code is 0 with scalar literal `v` starts the loop with [v] as output, `last` and entry 3 |
| Fixtures.DecodesIza | lz-string_test.go:13 | "IZA", and "IZA=" or any input starting with "IZA", decodes to "a" under both tables |
| Fixtures.DecodesIbi | lz-string_test.go:14 | "IbI" and "IbI=" decode to "aa" under both tables |
| Fixtures.DecodesAco | lz-string_test.go:15 | "Aco" and "Aco=" decode to "ààà" under both tables |
| Fixtures.DecodesAc1a | lz-string_test.go:16 | "Ac1A" decodes to "àààààà" under both tables |
| Fixtures.DecodesC4e1q | lz-string_test.go:17 | "C4e1Q" and "C4e1Q===" decode to "toto" under both tables |
| Fixtures.TruncatedInput | lz-string.go:43-47 | "I" alone: the literal after code 0 needs a second symbol, so decoding stops with OutOfInput, the Go panic, and no output |

## Left out

- UTF-8: output is a sequence of code points rather than UTF-8 bytes. Only the two U+FFFD substitutions of `string(int)` and `utf8.DecodeRuneInString` are modelled.
- `enlargeIn` is a `float64` set with `math.Pow` at lz-string.go:27 and 63. The model uses an integer: its values are small whole numbers that a `float64` holds exactly.
- The Go maps of lz-string.go:16 and 19 are modelled as total lookup functions over character ranges. Hashing plays no part.
- The error strings are modelled as the enum `Error`.
- The return at lz-string.go:133 is unreachable and has no counterpart.
- The Go panic on truncated input is modelled as the outcome `OutOfInput`. No process abort is modelled.
- The table map that the source passes to each function is kept as a field of `LzString.Decoder`.
- The bitwise `val & position` is modelled by `MaskTest`, a test of the bit the power-of-two mask selects.
- `LzString.Decoder.NextBit`, `LzString.Decoder.ReadLiteral` and `LzString.Drive` are the loop body of `readBits`, the shared literal case of `getString`, and the loop of `decompress`. They were split out as methods of their own.
- Decoding.LiteralToken, Decoding.DecodeFromLiteral and Decoding.DecodedFirstLiteral carry a code-0 literal through a whole `getString` call and the loop. For code 1 the step rule stops at the dispatch: `WideLiteralDispatch` and `SurrogateLiteral` state the 16-bit read and its value, and `LiteralEffect` states the value for either width.
- The longer fixtures at lz-string_test.go:18-21 are not worked through. The model is defined for them, but no lemma computes their decodings.
- The test loop and the benchmark at lz-string_test.go:24-49 are test plumbing. Only their fixture values are used.
