/** The compressed input read as a stream of bits: symbol `s` of the input
    supplies stream bits 6*s .. 6*s+5, taken from bit 5 down to bit 0 of the
    symbol's table value. This is the reference against which `readBits` is
    proved. */
module BitStream {
  import opened Wrappers
  import opened Alphabet

  /** Why reading the compressed input stopped. */
  datatype Error =
    | IllegalCharacter       // "Illegal character encountered."
    | BadCharacterEncoding   // "Bad character encoding."
    | OutOfInput             // the Go runtime panic: input indexed past its end

  function Pow2(n: nat): (r: nat)
    ensures r >= 1
  {
    if n == 0 then 1 else 2 * Pow2(n - 1)
  }

  /** The table value of symbol `s`, or why it has none. */
  function Fetch(t: Table, input: seq<byte>, s: nat): Result<nat, Error>
  {
    if s >= |input| then Failure(OutOfInput)
    else match Lookup(t, input[s])
      case None => Failure(IllegalCharacter)
      case Some(v) => Success(v)
  }

  /** Bit `j` of `v`. */
  function BitOf(v: nat, j: nat): (b: nat)
    ensures b <= 1
  {
    if j == 0 then v % 2 else BitOf(v / 2, j - 1)
  }

  /** Stream bit `k`: bit 5 - k%6 of the value of symbol k/6 (0 where that
      symbol has no value; such bits are never returned). */
  function StreamBit(t: Table, input: seq<byte>, k: nat): (b: nat)
    ensures b <= 1
  {
    match Fetch(t, input, k / 6)
    case Success(v) => BitOf(v, 5 - k % 6)
    case Failure(_) => 0
  }

  /** The `nb` stream bits from bit `c` on, as a number whose bit i is stream
      bit c+i: the first bit read is the least significant. */
  function BitsValue(t: Table, input: seq<byte>, c: nat, nb: nat): nat
    decreases nb
  {
    if nb == 0 then 0 else StreamBit(t, input, c) + 2 * BitsValue(t, input, c + 1, nb - 1)
  }

  /** The first symbol among lo..hi (both included) that has no value, if any. */
  function FirstBadSymbol(t: Table, input: seq<byte>, lo: nat, hi: int): Option<Error>
    decreases hi + 1 - lo
  {
    if lo > hi then None
    else match Fetch(t, input, lo)
      case Failure(e) => Some(e)
      case Success(_) => FirstBadSymbol(t, input, lo + 1, hi)
  }

  /** What reading `nb` bits from stream bit `c` yields, given that the symbol
      holding bit `c` has already been fetched. The reader fetches the next
      symbol as soon as it has used the last bit of the current one, so it
      needs symbols c/6+1 .. (c+nb)/6, in that order, and fails on the first
      one that is missing or not in the table. */
  function Bits(t: Table, input: seq<byte>, c: nat, nb: nat): Result<nat, Error>
  {
    match FirstBadSymbol(t, input, c / 6 + 1, (c + nb) / 6)
    case Some(e) => Failure(e)
    case None => Success(BitsValue(t, input, c, nb))
  }

  // ---------------------------------------------------------------------
  // Properties of the reference reader

  /** An `nb`-bit read yields a number below 2^nb. */
  lemma {:induction false} BitsValueBound(t: Table, input: seq<byte>, c: nat, nb: nat)
    ensures BitsValue(t, input, c, nb) < Pow2(nb)
    decreases nb
  {
    if nb > 0 {
      BitsValueBound(t, input, c + 1, nb - 1);
    }
  }

  /** Bit `i` of the value read is stream bit `c + i`. */
  lemma {:induction false} BitsValueBit(t: Table, input: seq<byte>, c: nat, nb: nat, i: nat)
    requires i < nb
    ensures BitOf(BitsValue(t, input, c, nb), i) == StreamBit(t, input, c + i)
    decreases i
  {
    var b, rest := StreamBit(t, input, c), BitsValue(t, input, c + 1, nb - 1);
    LowBit(b, rest);
    if i > 0 {
      BitsValueBit(t, input, c + 1, nb - 1, i - 1);
    }
  }

  lemma LowBit(b: nat, rest: nat)
    requires b <= 1
    ensures (b + 2 * rest) % 2 == b && (b + 2 * rest) / 2 == rest
  {
  }

  /** One more bit at the end adds that bit at the next power of two; this is
      how the reader's loop builds its result. */
  lemma {:induction false} BitsValueSnoc(t: Table, input: seq<byte>, c: nat, i: nat)
    ensures BitsValue(t, input, c, i + 1)
         == BitsValue(t, input, c, i) + if StreamBit(t, input, c + i) == 1 then Pow2(i) else 0
    decreases i
  {
    if i > 0 {
      var b0, bit := StreamBit(t, input, c), StreamBit(t, input, c + i);
      var longer, shorter := BitsValue(t, input, c + 1, i), BitsValue(t, input, c + 1, i - 1);
      BitsValueSnoc(t, input, c + 1, i - 1);
      assert c + 1 + (i - 1) == c + i;
      assert longer == shorter + if bit == 1 then Pow2(i - 1) else 0;
      assert BitsValue(t, input, c, i + 1) == b0 + 2 * longer;
      assert BitsValue(t, input, c, i) == b0 + 2 * shorter;
      assert Pow2(i) == 2 * Pow2(i - 1);
    }
  }

  /** FirstBadSymbol finds nothing exactly when every symbol in the range is
      present and in the table. */
  lemma {:induction false} NoBadSymbolIff(t: Table, input: seq<byte>, lo: nat, hi: int)
    ensures FirstBadSymbol(t, input, lo, hi) == None
        <==> forall s :: lo <= s <= hi ==> Fetch(t, input, s).Success?
    decreases hi + 1 - lo
  {
    if lo <= hi {
      NoBadSymbolIff(t, input, lo + 1, hi);
    }
  }

  /** A bad symbol after a clean stretch is the first bad symbol of any range
      that contains both. */
  lemma {:induction false} FirstBadSymbolAt(t: Table, input: seq<byte>, lo: nat, s: nat, hi: int)
    requires lo <= s <= hi
    requires FirstBadSymbol(t, input, lo, s - 1) == None
    requires Fetch(t, input, s).Failure?
    ensures FirstBadSymbol(t, input, lo, hi) == Some(Fetch(t, input, s).error)
    decreases s - lo
  {
    if lo < s {
      FirstBadSymbolAt(t, input, lo + 1, s, hi);
    }
  }

  /** The read succeeds exactly when every symbol it has to fetch is present
      and in the table; it then yields a number below 2^nb. */
  lemma BitsSucceedsIff(t: Table, input: seq<byte>, c: nat, nb: nat)
    ensures Bits(t, input, c, nb).Success?
        <==> forall s :: c / 6 < s <= (c + nb) / 6 ==> Fetch(t, input, s).Success?
    ensures Bits(t, input, c, nb).Success? ==> Bits(t, input, c, nb).value < Pow2(nb)
  {
    NoBadSymbolIff(t, input, c / 6 + 1, (c + nb) / 6);
    BitsValueBound(t, input, c, nb);
  }

  /** A read fails with the error of the first symbol it needs that is
      missing or not in the table. */
  lemma BitsFailAt(t: Table, input: seq<byte>, c: nat, nb: nat, k: nat)
    requires c / 6 < k <= (c + nb) / 6
    requires forall s :: c / 6 < s < k ==> Fetch(t, input, s).Success?
    requires Fetch(t, input, k).Failure?
    ensures Bits(t, input, c, nb) == Failure(Fetch(t, input, k).error)
  {
    NoBadSymbolIff(t, input, c / 6 + 1, k - 1);
    FirstBadSymbolAt(t, input, c / 6 + 1, k, (c + nb) / 6);
  }

  /** A read whose symbols are all present and in the table yields the
      stream bits. */
  lemma BitsSucceed(t: Table, input: seq<byte>, c: nat, nb: nat)
    requires forall s :: c / 6 < s <= (c + nb) / 6 ==> Fetch(t, input, s).Success?
    ensures Bits(t, input, c, nb) == Success(BitsValue(t, input, c, nb))
  {
    NoBadSymbolIff(t, input, c / 6 + 1, (c + nb) / 6);
  }

  /** A read that ends inside the input fails only on a symbol outside the
      table; one that needs a symbol past the end fails with OutOfInput unless
      an earlier symbol is outside the table. */
  lemma {:induction false} BitsFailure(t: Table, input: seq<byte>, lo: nat, hi: int)
    ensures FirstBadSymbol(t, input, lo, hi) == Some(OutOfInput) ==> hi >= |input|
    ensures FirstBadSymbol(t, input, lo, hi) == Some(IllegalCharacter)
        ==> exists s :: lo <= s <= hi && s < |input| && Lookup(t, input[s]).None?
    decreases hi + 1 - lo
  {
    if lo <= hi && Fetch(t, input, lo).Success? {
      BitsFailure(t, input, lo + 1, hi);
    }
  }

  /** A symbol of value 64 (`$` or `=`) contributes six zero bits: the reader
      looks only at bits 5..0 of a symbol. */
  lemma PaddingSymbolIsZeroBits(t: Table, input: seq<byte>, s: nat, j: nat)
    requires Fetch(t, input, s) == Success(64)
    requires j < 6
    ensures StreamBit(t, input, 6 * s + j) == 0
  {
    assert (6 * s + j) / 6 == s && (6 * s + j) % 6 == j;
    assert BitOf(64, 5 - j) == 0 by {
      assert BitOf(64, 0) == 0 && BitOf(64, 1) == 0 && BitOf(64, 2) == 0;
      assert BitOf(64, 3) == 0 && BitOf(64, 4) == 0 && BitOf(64, 5) == 0;
    }
  }

  /** A read that succeeds from a fetched symbol ends on a fetched symbol:
      the reader never stands past the end of the input. */
  lemma BitsStayInInput(t: Table, input: seq<byte>, c: nat, nb: nat)
    requires c / 6 < |input|
    requires Bits(t, input, c, nb).Success?
    ensures (c + nb) / 6 < |input|
  {
    if (c + nb) / 6 > c / 6 {
      NoBadSymbolIff(t, input, c / 6 + 1, (c + nb) / 6);
      assert Fetch(t, input, (c + nb) / 6).Success?;
    }
  }

  /** Reads fail only for want of a symbol: never with BadCharacterEncoding. */
  lemma {:induction false} BitsErrorIsAboutSymbols(t: Table, input: seq<byte>, lo: nat, hi: int)
    ensures FirstBadSymbol(t, input, lo, hi) != Some(BadCharacterEncoding)
    decreases hi + 1 - lo
  {
    if lo <= hi && Fetch(t, input, lo).Success? {
      BitsErrorIsAboutSymbols(t, input, lo + 1, hi);
    }
  }
}
