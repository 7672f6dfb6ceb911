/** The HELLO frame: its grammar, the server's byte parser, and the decimal text it reads back. */
module HelloParser {
  import opened Common

  const SPACE: Byte := 32
  const LINE_FEED: Byte := 10
  const CARRIAGE_RETURN: Byte := 13
  const HELLO: Bytes := [72, 69, 76, 76, 79]
  const PREFIX: Bytes := [72, 69, 76, 76, 79, 32]  // "HELLO" and one space

  predicate IsTrailing(b: Byte) {
    b == LINE_FEED || b == CARRIAGE_RETURN || b == SPACE
  }

  predicate IsDigit(b: Byte) {
    48 <= b <= 57
  }

  predicate AllSpaces(s: Bytes) {
    forall i :: 0 <= i < |s| ==> s[i] == SPACE
  }

  predicate AllTrailing(s: Bytes) {
    forall i :: 0 <= i < |s| ==> IsTrailing(s[i])
  }

  predicate AllDigits(s: Bytes) {
    forall i :: 0 <= i < |s| ==> IsDigit(s[i])
  }

  function DigitsValue(digits: Bytes): nat
    requires AllDigits(digits)
  {
    if digits == [] then 0
    else DigitsValue(digits[..|digits| - 1]) * 10 + (digits[|digits| - 1] - 48)
  }

  // ---------- Grammar ----------

  ghost predicate Splits(frame: Bytes, blanks: Bytes, digits: Bytes, tail: Bytes) {
    frame == blanks + PREFIX + digits + tail && AllSpaces(blanks) && AllTrailing(tail)
  }

  /** frame is spaces, HELLO, one space, one or more digits, then any mix of spaces, CR and LF. */
  ghost predicate IsHello(frame: Bytes, digits: Bytes) {
    digits != [] && AllDigits(digits) && exists blanks, tail :: Splits(frame, blanks, digits, tail)
  }

  /** The client id a frame announces; 0 stands for "not a HELLO". */
  ghost function ClientIdOf(frame: Bytes): Word {
    if digits :| IsHello(frame, digits) then Wrap(DigitsValue(digits)) else 0
  }

  /** frame[beg..end] is frame without its leading spaces and its trailing spaces, CRs and LFs. */
  ghost predicate Trimmed(frame: Bytes, beg: nat, end: nat) {
    && beg <= end <= |frame|
    && (forall i :: 0 <= i < beg ==> frame[i] == SPACE)
    && (forall i :: end <= i < |frame| ==> IsTrailing(frame[i]))
    && (beg < end ==> frame[beg] != SPACE && !IsTrailing(frame[end - 1]))
  }

  lemma TrimUnique(frame: Bytes, b: nat, e: nat, beg: nat, end: nat)
    requires Trimmed(frame, b, e) && b < e && Trimmed(frame, beg, end)
    ensures b == beg && e == end
  {
  }

  lemma SplitTrims(frame: Bytes, blanks: Bytes, digits: Bytes, tail: Bytes)
    requires Splits(frame, blanks, digits, tail) && digits != [] && AllDigits(digits)
    ensures var b, e := |blanks|, |frame| - |tail|;
            b + 6 < e && Trimmed(frame, b, e) && frame[b..e] == PREFIX + digits
  {
    var b, e := |blanks|, |frame| - |tail|;
    assert frame[b] == PREFIX[0];
    assert frame[e - 1] == digits[|digits| - 1];
    forall i | e <= i < |frame|
      ensures IsTrailing(frame[i])
    {
      assert frame[i] == tail[i - e];
    }
  }

  lemma TrimmedHello(frame: Bytes, beg: nat, end: nat, digits: Bytes)
    requires Trimmed(frame, beg, end) && IsHello(frame, digits)
    ensures frame[beg..end] == PREFIX + digits
  {
    var blanks, tail :| Splits(frame, blanks, digits, tail);
    SplitTrims(frame, blanks, digits, tail);
    TrimUnique(frame, |blanks|, |frame| - |tail|, beg, end);
  }

  /** The grammar is unambiguous. */
  lemma HelloUnique(frame: Bytes, d1: Bytes, d2: Bytes)
    requires IsHello(frame, d1) && IsHello(frame, d2)
    ensures d1 == d2
  {
    var blanks, tail :| Splits(frame, blanks, d1, tail);
    SplitTrims(frame, blanks, d1, tail);
    TrimmedHello(frame, |blanks|, |frame| - |tail|, d2);
    assert d1 == (PREFIX + d1)[6..] == (PREFIX + d2)[6..] == d2;
  }

  lemma ClientIdOfHello(frame: Bytes, digits: Bytes)
    requires IsHello(frame, digits)
    ensures ClientIdOf(frame) == Wrap(DigitsValue(digits))
  {
    var d :| IsHello(frame, d) && ClientIdOf(frame) == Wrap(DigitsValue(d));
    HelloUnique(frame, d, digits);
  }

  // ---------- The parser ----------

  lemma CoreIsHello(frame: Bytes, beg: nat, end: nat)
    requires Trimmed(frame, beg, end) && beg + 6 < end
    requires frame[beg..beg + 6] == PREFIX && AllDigits(frame[beg + 6..end])
    ensures IsHello(frame, frame[beg + 6..end])
  {
    assert frame == frame[..beg] + frame[beg..beg + 6] + frame[beg + 6..end] + frame[end..];
    assert Splits(frame, frame[..beg], frame[beg + 6..end], frame[end..]);
  }

  lemma NotHello(frame: Bytes, beg: nat, end: nat)
    requires Trimmed(frame, beg, end)
    requires forall digits :: digits != [] && AllDigits(digits) ==> frame[beg..end] != PREFIX + digits
    ensures ClientIdOf(frame) == 0
  {
    forall digits | IsHello(frame, digits)
      ensures false
    {
      TrimmedHello(frame, beg, end, digits);
    }
  }

  /** The bounds of frame without leading spaces and trailing spaces, CRs and LFs. */
  method Trim(frame: Bytes) returns (beg: nat, end: nat)
    ensures Trimmed(frame, beg, end)
  {
    end := |frame|;
    while end > 0 && IsTrailing(frame[end - 1])
      invariant 0 <= end <= |frame|
      invariant forall i :: end <= i < |frame| ==> IsTrailing(frame[i])
    {
      end := end - 1;
    }
    beg := 0;
    while beg < end && frame[beg] == SPACE
      invariant 0 <= beg <= end
      invariant forall i :: 0 <= i < beg ==> frame[i] == SPACE
    {
      beg := beg + 1;
    }
  }

  /** The decimal number in frame[first..end], in 64-bit arithmetic, unless some byte there is no digit. */
  method ParseDigits(frame: Bytes, first: nat, end: nat) returns (ok: bool, id: Word)
    requires first <= end <= |frame|
    ensures ok <==> AllDigits(frame[first..end])
    ensures ok ==> id == Wrap(DigitsValue(frame[first..end]))
  {
    id := 0;
    for i := first to end
      invariant AllDigits(frame[first..i])
      invariant id == Wrap(DigitsValue(frame[first..i]))
    {
      var c := frame[i];
      if c < 48 || c > 57 {
        assert frame[first..end][i - first] == c;
        return false, 0;
      }
      NextDigit(frame, first, i);
      id := Wrap(Wrap(id * 10) + (c - 48));
    }
    ok := true;
  }

  method ParseClientId(frame: Bytes) returns (id: Word)
    ensures id == ClientIdOf(frame)
  {
    if |frame| == 0 {
      NotHello(frame, 0, 0);
      return 0;
    }
    var beg, end := Trim(frame);
    ghost var core := frame[beg..end];
    if beg >= end || end - beg < 7 {
      NotHello(frame, beg, end);
      return 0;
    }
    for i := 0 to 5
      invariant forall k :: 0 <= k < i ==> frame[beg + k] == HELLO[k]
    {
      if frame[beg + i] != HELLO[i] {
        assert core[i] != PREFIX[i];
        NotHello(frame, beg, end);
        return 0;
      }
    }
    if frame[beg + 5] != SPACE {
      assert core[5] != PREFIX[5];
      NotHello(frame, beg, end);
      return 0;
    }
    assert core == PREFIX + frame[beg + 6..end];
    var ok;
    ok, id := ParseDigits(frame, beg + 6, end);
    if ok {
      assert frame[beg..beg + 6] == PREFIX;
      CoreIsHello(frame, beg, end);
      ClientIdOfHello(frame, frame[beg + 6..end]);
    } else {
      SameRest(frame[beg + 6..end]);
      NotHello(frame, beg, end);
      return 0;
    }
  }

  lemma SameRest(rest: Bytes)
    ensures forall digits :: PREFIX + rest == PREFIX + digits ==> rest == digits
  {
    forall digits | PREFIX + rest == PREFIX + digits
      ensures rest == digits
    {
      assert rest == (PREFIX + rest)[6..] == (PREFIX + digits)[6..] == digits;
    }
  }

  lemma NextDigit(frame: Bytes, first: nat, i: nat)
    requires first <= i < |frame| && AllDigits(frame[first..i]) && IsDigit(frame[i])
    ensures AllDigits(frame[first..i + 1])
    ensures Wrap(DigitsValue(frame[first..i + 1]))
         == Wrap(Wrap(Wrap(DigitsValue(frame[first..i])) * 10) + (frame[i] - 48))
  {
    assert frame[first..i + 1] == frame[first..i] + [frame[i]];
    assert frame[first..i + 1][..i - first] == frame[first..i];
    WrapDigit(DigitsValue(frame[first..i]), frame[i] - 48);
  }

  lemma WrapDigit(n: nat, digit: nat)
    ensures Wrap(Wrap(Wrap(n) * 10) + digit) == Wrap(n * 10 + digit)
  {
    WrapScaled(n, 10);
    WrapShift(n * 10, digit);
  }

  // ---------- Round trip ----------

  /** The decimal text of n, as std::to_string prints it. */
  function Decimal(n: nat): (digits: Bytes)
    ensures digits != [] && AllDigits(digits) && DigitsValue(digits) == n
  {
    if n < 10 then
      assert DigitsValue([48 + n]) == n;
      [48 + n]
    else
      var front := Decimal(n / 10);
      var digits := front + [48 + n % 10];
      assert digits[..|digits| - 1] == front;
      digits
  }

  lemma {:induction false} NoLeadingZero(n: nat)
    requires n > 0
    ensures Decimal(n)[0] != 48
  {
    if n >= 10 {
      NoLeadingZero(n / 10);
    }
  }

  /** A HELLO with the decimal text of n is read as n modulo 2^64, so exactly the ids below 2^64 survive. */
  lemma HelloRoundTrip(n: nat, blanks: Bytes, tail: Bytes)
    requires AllSpaces(blanks) && AllTrailing(tail)
    ensures var id := ClientIdOf(blanks + PREFIX + Decimal(n) + tail);
            && id == Wrap(n)
            && (id == n <==> n < WORD_MODULUS)
  {
    var frame := blanks + PREFIX + Decimal(n) + tail;
    assert Splits(frame, blanks, Decimal(n), tail);
    ClientIdOfHello(frame, Decimal(n));
  }

  // ---------- The frame byte by byte ----------

  /** Spaces, the bytes of "HELLO ", decimal digits, then any mix of spaces, carriage returns and line feeds. */
  ghost predicate Spelled(frame: Bytes, blanks: Bytes, digits: Bytes, tail: Bytes) {
    && frame == blanks + [72, 69, 76, 76, 79, 32] + digits + tail
    && (forall i :: 0 <= i < |blanks| ==> blanks[i] == 32)
    && |digits| > 0 && (forall i :: 0 <= i < |digits| ==> 48 <= digits[i] <= 57)
    && (forall i :: 0 <= i < |tail| ==> tail[i] == 32 || tail[i] == 13 || tail[i] == 10)
  }

  lemma {:induction false} DigitsInDecimal(digits: Bytes, d: Byte)
    requires 48 <= d <= 57 && forall i :: 0 <= i < |digits| ==> 48 <= digits[i] <= 57
    ensures AllDigits(digits) && AllDigits(digits + [d])
    ensures DigitsValue([]) == 0 && DigitsValue(digits + [d]) == 10 * DigitsValue(digits) + (d - 48)
  {
    assert (digits + [d])[..|digits|] == digits;
  }

  /** Exactly the frames spelled so announce an id: the value of their digits modulo 2^64. All others are read as 0. */
  lemma SpelledFramesAreRead(frame: Bytes)
    ensures forall blanks, digits, tail :: Spelled(frame, blanks, digits, tail) ==>
              AllDigits(digits) && ClientIdOf(frame) == Wrap(DigitsValue(digits))
    ensures (forall blanks, digits, tail :: !Spelled(frame, blanks, digits, tail)) ==> ClientIdOf(frame) == 0
  {
    forall blanks, digits, tail | Spelled(frame, blanks, digits, tail)
      ensures AllDigits(digits) && ClientIdOf(frame) == Wrap(DigitsValue(digits))
    {
      assert Splits(frame, blanks, digits, tail);
      ClientIdOfHello(frame, digits);
    }
    if digits :| IsHello(frame, digits) {
      var blanks, tail :| Splits(frame, blanks, digits, tail);
      assert Spelled(frame, blanks, digits, tail);
    }
  }

  /** The error reply (id 0) answers exactly the frames outside the grammar and the multiples of 2^64. */
  lemma RejectedFrames(frame: Bytes)
    ensures ClientIdOf(frame) == 0 <==> forall digits :: IsHello(frame, digits) ==> Wrap(DigitsValue(digits)) == 0
  {
    if digits :| IsHello(frame, digits) {
      ClientIdOfHello(frame, digits);
      if ClientIdOf(frame) == 0 {
        forall d | IsHello(frame, d)
          ensures Wrap(DigitsValue(d)) == 0
        {
          ClientIdOfHello(frame, d);
        }
      }
    }
  }
}
