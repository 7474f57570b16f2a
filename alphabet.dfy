/** The two fixed symbol tables of the compressed text (`keyStrUriSafe` and
    `keyStrBase64`) and the lookup `getBaseValue`. */
module Alphabet {
  import opened Wrappers

  /** A code unit of the compressed input, which the decoder reads byte by byte. */
  newtype byte = b: int | 0 <= b < 256

  /** Which of the two tables a decompression call uses. */
  datatype Table = UriSafe | Base64

  /** The `n` consecutive characters starting at `first`. */
  function Run(first: char, n: nat): (r: seq<char>)
    requires first as int + n < 0xD800
    ensures |r| == n
    ensures forall i :: 0 <= i < n ==> r[i] as int == first as int + i
  {
    seq(n, i requires 0 <= i < n => (first as int + i) as char)
  }

  /** The key string whose i-th character has value i:
      "A".."Z", "a".."z", "0".."9", then "+-$" (URI-safe) or "+/=" (Base64). */
  function KeyString(t: Table): (r: seq<char>)
    ensures |r| == 65
  {
    Run('A', 26) + Run('a', 26) + Run('0', 10) +
    match t
    case UriSafe => "+-$"
    case Base64 => "+/="
  }

  /** `getBaseValue`: the value of a symbol, or None when the symbol is not in
      the table. Both tables agree on letters, digits and `+`; they differ on the
      symbols for 63 and 64. */
  function Lookup(t: Table, b: byte): Option<nat>
  {
    if 65 <= b <= 90 then Some(b as nat - 65)        // 'A'..'Z'  ->  0..25
    else if 97 <= b <= 122 then Some(b as nat - 71)  // 'a'..'z'  -> 26..51
    else if 48 <= b <= 57 then Some(b as nat + 4)    // '0'..'9'  -> 52..61
    else if b == 43 then Some(62)                    // '+'
    else match t
      case UriSafe =>
        if b == 45 then Some(63)                     // '-'
        else if b == 36 then Some(64)                // '$'
        else None
      case Base64 =>
        if b == 47 then Some(63)                     // '/'
        else if b == 61 then Some(64)                // '='
        else None
  }

  /** Every table maps a symbol to its position in the key string and nothing
      else: Lookup is the inverse of indexing the key string. */
  lemma LookupIsKeyStringIndex(t: Table, b: byte, v: nat)
    ensures Lookup(t, b) == Some(v) <==> v < 65 && KeyString(t)[v] as int == b as int
  {
    var k := KeyString(t);
    if v < 65 && k[v] as int == b as int {
      if v < 26 {
        assert k[v] == Run('A', 26)[v];
      } else if v < 52 {
        assert k[v] == Run('a', 26)[v - 26];
      } else if v < 62 {
        assert k[v] == Run('0', 10)[v - 52];
      }
    }
    if Lookup(t, b) == Some(v) {
      if v < 26 {
        assert k[v] == Run('A', 26)[v];
      } else if v < 52 {
        assert k[v] == Run('a', 26)[v - 26];
      } else if v < 62 {
        assert k[v] == Run('0', 10)[v - 52];
      }
    }
  }

  /** Values stay within 0..64, so a symbol carries six bits (64 carries none set
      among the six the reader looks at). */
  lemma LookupBound(t: Table, b: byte)
    ensures Lookup(t, b).Some? ==> Lookup(t, b).value <= 64
  {
  }

  /** The tables differ only on `-`, `$`, `/` and `=`. */
  lemma TablesShareOtherSymbols(b: byte)
    ensures b !in {45, 36, 47, 61} ==> Lookup(UriSafe, b) == Lookup(Base64, b)
    ensures b in {45, 36, 47, 61} ==> Lookup(UriSafe, b) != Lookup(Base64, b)
  {
  }
}
