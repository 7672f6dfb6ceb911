/** Types shared by every module: optional values, machine words and orders. */
module Common {

  datatype Option<+T> = None | Some(value: T)

  /** s without its element at i. */
  function Without<T>(s: seq<T>, i: nat): seq<T>
    requires i < |s|
  {
    s[..i] + s[i + 1..]
  }

  const WORD_MODULUS: int := 0x1_0000_0000_0000_0000

  /** A C++ uint64_t. */
  type Word = w: int | 0 <= w < 0x1_0000_0000_0000_0000

  type Byte = b: int | 0 <= b < 256

  type Bytes = seq<Byte>

  type OrderId = Word

  datatype Order = Order(id: OrderId, price: Word, quantity: Word)

  datatype MdUpdate = MdUpdate(
    bestBidPrice: Word, bestBidQty: Word, bestAskPrice: Word, bestAskQty: Word, totalBidQty: Word, totalAskQty: Word)

  /** Unsigned 64-bit arithmetic wraps around: i brought into range by whole multiples of 2^64. */
  function Wrap(i: int): Word
    decreases if i < 0 then WORD_MODULUS - i else i
  {
    if i < 0 then Wrap(i + WORD_MODULUS)
    else if i < WORD_MODULUS then i
    else Wrap(i - WORD_MODULUS)
  }

  /** Wrap(i) is the residue of i: the two differ by a multiple of 2^64. */
  lemma {:induction false} WrapIsResidue(i: int) returns (quotient: int)
    ensures i == Wrap(i) + quotient * WORD_MODULUS
    decreases if i < 0 then WORD_MODULUS - i else i
  {
    if i < 0 {
      quotient := WrapIsResidue(i + WORD_MODULUS);
      quotient := quotient - 1;
    } else if i >= WORD_MODULUS {
      quotient := WrapIsResidue(i - WORD_MODULUS);
      quotient := quotient + 1;
    } else {
      quotient := 0;
    }
  }

  /** Wrapping an operand first does not change a wrapped sum. */
  lemma {:induction false} WrapShift(i: int, delta: int)
    ensures Wrap(Wrap(i) + delta) == Wrap(i + delta)
    decreases if i < 0 then WORD_MODULUS - i else i
  {
    if i < 0 {
      WrapShift(i + WORD_MODULUS, delta);
      WrapPeriod(i + delta);
    } else if i >= WORD_MODULUS {
      WrapShift(i - WORD_MODULUS, delta);
      WrapPeriod(i - WORD_MODULUS + delta);
    }
  }

  lemma WrapPeriod(i: int)
    ensures Wrap(i + WORD_MODULUS) == Wrap(i)
  {
  }

  lemma WrapTwice(i: int, minus: int, plus: int)
    ensures Wrap(Wrap(Wrap(i) - minus) + plus) == Wrap(i - minus + plus)
  {
    WrapShift(i, -minus);
    WrapShift(i - minus, plus);
  }

  lemma {:induction false} WrapScaled(i: int, factor: nat)
    ensures Wrap(Wrap(i) * factor) == Wrap(i * factor)
  {
    if factor > 0 {
      WrapScaled(i, factor - 1);
      var w := Wrap(i);
      assert w * factor == w * (factor - 1) + w && i * factor == i * (factor - 1) + i;
      WrapShift(w * (factor - 1), w);
      WrapShift(i * (factor - 1), w);
      WrapShift(i, i * (factor - 1));
    }
  }
}
