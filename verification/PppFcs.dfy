/** The 16-bit frame check sequence of the PPP device.

  The reference is a bit-serial register: bits enter least significant first, and the
  reflected polynomial x^16 + x^12 + x^5 + 1 is folded in whenever a one leaves. The
  device works an octet at a time, without a table and without a branch.
 */
module PppFcs {

  const INIT: bv16 := 0xFFFF
  const GOOD: bv16 := 0xF0B8

  // ----- The reference -----

  function BitStep(r: bv16): bv16 {
    if r & 1 == 1 then (r >> 1) ^ 0x8408 else r >> 1
  }

  function BitIn(r: bv16, bit: bool): bv16 {
    BitStep(if bit then Xor(r, 1) else r)
  }

  function CrcBits(r: bv16, bits: seq<bool>): bv16
    decreases |bits|
  {
    if bits == [] then r else CrcBits(BitIn(r, bits[0]), bits[1..])
  }

  /** The bits of an octet in the order they travel, least significant first. */
  function OctetBits(o: bv8): seq<bool> {
    [o & 1 == 1, (o >> 1) & 1 == 1, (o >> 2) & 1 == 1, (o >> 3) & 1 == 1,
     (o >> 4) & 1 == 1, (o >> 5) & 1 == 1, (o >> 6) & 1 == 1, (o >> 7) & 1 == 1]
  }

  function Bits(s: seq<bv8>): seq<bool> {
    if s == [] then [] else OctetBits(s[0]) + Bits(s[1..])
  }

  // ----- The code -----

  function FcsChar(oldCrc: bv16, data: bv8): bv16 {
    Xor(Upper(oldCrc), Folded(Lower(Xor(oldCrc, Wide(data)))))
  }

  function Xor(a: bv16, b: bv16): bv16 {
    a ^ b
  }

  function Wide(o: bv8): bv16 {
    o as bv16
  }

  function Upper(w: bv16): bv16 {
    w >> 8
  }

  function Lower(w: bv16): bv16 {
    w & 0x00FF
  }

  /** What the low octet folds into the register. */
  function Folded(low: bv16): bv16 {
    var word := low ^ ((low << 4) & 0x00FF);
    (word << 8) ^ (word << 3) ^ (word >> 4)
  }

  function FcsFinish(fcs: bv16): bv16 {
    fcs ^ 0xFFFF
  }

  function LowOctet(fcs: bv16): bv8 {
    (fcs & 0x00FF) as bv8
  }

  function HighOctet(fcs: bv16): bv8 {
    ((fcs & 0xFF00) >> 8) as bv8
  }

  /** The register after a sequence of octets. */
  function Crc(r: bv16, s: seq<bv8>): bv16
    decreases |s|
  {
    if s == [] then r else Crc(FcsChar(r, s[0]), s[1..])
  }

  method FcsContinue(fcs: bv16, buf: array<bv8>, start: nat, len: nat) returns (r: bv16)
    requires start + len <= buf.Length
    ensures r == Crc(fcs, buf[start..start + len])
  {
    r := fcs;
    var pos := start;
    while pos < start + len
      invariant start <= pos <= start + len
      invariant Crc(r, buf[pos..start + len]) == Crc(fcs, buf[start..start + len])
    {
      assert buf[pos..start + len][1..] == buf[pos + 1..start + len];
      r := FcsChar(r, buf[pos]);
      pos := pos + 1;
    }
  }

  method FcsStart(buf: array<bv8>, start: nat, len: nat) returns (r: bv16)
    requires start + len <= buf.Length
    ensures r == Crc(INIT, buf[start..start + len])
  {
    r := FcsContinue(INIT, buf, start, len);
  }

  /** The two octets that the sender appends, low octet first. */
  function FcsOctets(body: seq<bv8>): seq<bv8> {
    var fcs := FcsFinish(Crc(INIT, body));
    [LowOctet(fcs), HighOctet(fcs)]
  }

  ghost predicate Accepted(frame: seq<bv8>) {
    CrcBits(INIT, Bits(frame)) == GOOD
  }

  /** A buffer verifies exactly when the register run over all of it, check octets
      included, ends in the good value. */
  method FcsVerify(buf: array<bv8>, start: nat, len: nat) returns (ok: bool)
    requires 2 <= len && start + len <= buf.Length
    ensures ok <==> CrcBits(0xFFFF, Bits(buf[start..start + len])) == 0xF0B8
    ensures ok <==> buf[start + len - 2..start + len] == FcsOctets(buf[start..start + len - 2])
  {
    var fcs := FcsStart(buf, start, len - 2);
    fcs := FcsFinish(fcs);
    ok := !(HighOctet(fcs) != buf[start + len - 1] || LowOctet(fcs) != buf[start + len - 2]);
    ghost var body, lo, hi := buf[start..start + len - 2], buf[start + len - 2], buf[start + len - 1];
    assert buf[start..start + len] == body + [lo, hi];
    assert buf[start + len - 2..start + len] == [lo, hi];
    AcceptedTail(body, lo, hi);
  }

  // ----- The octet step is eight bit steps -----

  // The proofs below work with named words and hide the bodies that they do not need, so
  // that the solver meets bit-vector arithmetic only in one-line facts.

  function Shr(a: bv16): bv16 {
    a >> 1
  }

  function ShrFour(a: bv16): bv16 {
    Shr(Shr(Shr(Shr(a))))
  }

  predicate Odd(a: bv16) {
    a & 1 == 1
  }

  lemma StepOdd(a: bv16)
    requires Odd(a)
    ensures BitStep(a) == Xor(Shr(a), 0x8408)
  {
  }

  lemma StepEven(a: bv16)
    requires !Odd(a)
    ensures BitStep(a) == Shr(a)
  {
  }

  lemma ShrXor(a: bv16, b: bv16)
    ensures Shr(Xor(a, b)) == Xor(Shr(a), Shr(b))
  {
    ShiftXor(a, b);
  }

  lemma ShiftXor(a: bv16, b: bv16)
    ensures (a ^ b) >> 1 == (a >> 1) ^ (b >> 1)
  {
  }

  lemma OddXor(a: bv16, b: bv16)
    ensures Odd(Xor(a, b)) == (Odd(a) != Odd(b))
  {
    LowXor(a, b);
    LowBit(a);
    LowBit(b);
  }

  lemma LowXor(a: bv16, b: bv16)
    ensures (a ^ b) & 1 == (a & 1) ^ (b & 1)
  {
  }

  lemma LowBit(a: bv16)
    ensures a & 1 == 0 || a & 1 == 1
  {
  }

  lemma CancelBoth(a: bv16, b: bv16, k: bv16)
    ensures Xor(Xor(a, k), Xor(b, k)) == Xor(a, b)
  {
    assert Xor(Xor(a, k), Xor(b, k)) == (a ^ k) ^ (b ^ k);
    XorCancels(a, b, k);
  }

  lemma XorCancels(a: bv16, b: bv16, k: bv16)
    ensures (a ^ k) ^ (b ^ k) == a ^ b
  {
  }

  lemma PullLeft(a: bv16, b: bv16, k: bv16)
    ensures Xor(Xor(a, k), b) == Xor(Xor(a, b), k)
  {
  }

  lemma PullRight(a: bv16, b: bv16, k: bv16)
    ensures Xor(a, Xor(b, k)) == Xor(Xor(a, b), k)
  {
  }

  /** The step is linear. */
  lemma BitStepXor(a: bv16, b: bv16)
    ensures BitStep(Xor(a, b)) == Xor(BitStep(a), BitStep(b))
  {
    hide *;
    OddXor(a, b);
    ShrXor(a, b);
    StepCase(a);
    StepCase(b);
    StepCase(Xor(a, b));
    CancelBoth(Shr(a), Shr(b), 0x8408);
    PullLeft(Shr(a), Shr(b), 0x8408);
    PullRight(Shr(a), Shr(b), 0x8408);
  }

  lemma StepCase(a: bv16)
    ensures Odd(a) ==> BitStep(a) == Xor(Shr(a), 0x8408)
    ensures !Odd(a) ==> BitStep(a) == Shr(a)
  {
    if Odd(a) {
      StepOdd(a);
    } else {
      StepEven(a);
    }
  }

  /** All but the lowest bit. */
  function Even(w: bv16): bv16 {
    w & 0xFFFE
  }

  lemma SplitOdd(r: bv16, w: bv16)
    requires Odd(w)
    ensures Xor(r, w) == Xor(Xor(r, 1), Even(w))
  {
    assert Xor(Xor(r, 1), Even(w)) == (r ^ 1) ^ (w & 0xFFFE);
    OddIs(r, w);
  }

  lemma OddIs(r: bv16, w: bv16)
    requires w & 1 == 1
    ensures r ^ w == (r ^ 1) ^ (w & 0xFFFE)
  {
  }

  lemma SplitEven(r: bv16, w: bv16)
    requires !Odd(w)
    ensures Xor(r, w) == Xor(r, Even(w))
  {
    LowBit(w);
    EvenIs(w);
  }

  lemma EvenIs(w: bv16)
    requires w & 1 == 0
    ensures w & 0xFFFE == w
  {
  }

  lemma EvenStep(w: bv16)
    ensures BitStep(Even(w)) == Shr(w)
  {
    EvenLow(w);
    EvenShift(w);
  }

  lemma EvenLow(w: bv16)
    ensures (w & 0xFFFE) & 1 == 0
  {
  }

  lemma EvenShift(w: bv16)
    ensures (w & 0xFFFE) >> 1 == w >> 1
  {
  }

  /** The rest of an octet may be added to the register before its bits are due. */
  lemma BitInAhead(r: bv16, w: bv16)
    ensures BitStep(Xor(r, w)) == Xor(BitIn(r, Odd(w)), Shr(w))
  {
    EvenStep(w);
    hide Xor, Shr, Odd, BitStep, Even;
    if Odd(w) {
      SplitOdd(r, w);
      BitStepXor(Xor(r, 1), Even(w));
    } else {
      SplitEven(r, w);
      BitStepXor(r, Even(w));
    }
  }

  /** Four bits at a time: w is what remains of the octet. */
  lemma FourBitsAhead(r: bv16, w: bv16)
    ensures BitStep(BitStep(BitStep(BitStep(Xor(r, w)))))
         == Xor(BitIn(BitIn(BitIn(BitIn(r, Odd(w)), Odd(Shr(w))), Odd(Shr(Shr(w)))), Odd(Shr(Shr(Shr(w))))), ShrFour(w))
  {
    hide BitStep, Xor, BitIn, Odd, Shr;
    var r1 := BitIn(r, Odd(w));
    var r2 := BitIn(r1, Odd(Shr(w)));
    var r3 := BitIn(r2, Odd(Shr(Shr(w))));
    BitInAhead(r, w);
    BitInAhead(r1, Shr(w));
    BitInAhead(r2, Shr(Shr(w)));
    BitInAhead(r3, Shr(Shr(Shr(w))));
  }

  lemma EightBitSteps(r: bv16, o: bv8)
    ensures BitStep(BitStep(BitStep(BitStep(BitStep(BitStep(BitStep(BitStep(Xor(r, Wide(o))))))))))
         == CrcBits(r, OctetBits(o))
  {
    var w := Wide(o);
    var b := OctetBits(o);
    LowerBits(o);
    UpperBits(o);
    assert |b| == 8;
    hide *;
    var r4 := BitIn(BitIn(BitIn(BitIn(r, b[0]), b[1]), b[2]), b[3]);
    var r8 := BitIn(BitIn(BitIn(BitIn(r4, b[4]), b[5]), b[6]), b[7]);
    FourBitsAhead(r, w);
    FourBitsAhead(r4, ShrFour(w));
    XorZero(r8);
    CrcBitsOfEight(r, b);
  }

  lemma LowerBits(o: bv8)
    ensures var w, b := Wide(o), OctetBits(o);
      b[0] == Odd(w) && b[1] == Odd(Shr(w)) && b[2] == Odd(Shr(Shr(w))) && b[3] == Odd(Shr(Shr(Shr(w))))
  {
  }

  lemma UpperBits(o: bv8)
    ensures var w, b := ShrFour(Wide(o)), OctetBits(o);
      && b[4] == Odd(w) && b[5] == Odd(Shr(w)) && b[6] == Odd(Shr(Shr(w))) && b[7] == Odd(Shr(Shr(Shr(w))))
      && ShrFour(w) == 0
  {
  }

  lemma XorZero(r: bv16)
    ensures Xor(r, 0) == r
  {
  }

  lemma CrcBitsOfEight(r: bv16, b: seq<bool>)
    requires |b| == 8
    ensures CrcBits(r, b)
         == BitIn(BitIn(BitIn(BitIn(BitIn(BitIn(BitIn(BitIn(r, b[0]), b[1]), b[2]), b[3]), b[4]), b[5]), b[6]), b[7])
  {
    var r2 := BitIn(BitIn(r, b[0]), b[1]);
    var r4 := BitIn(BitIn(r2, b[2]), b[3]);
    var r6 := BitIn(BitIn(r4, b[4]), b[5]);
    TwoBits(r, b);
    TwoBits(r2, b[2..]);
    assert b[2..][2..] == b[4..];
    TwoBits(r4, b[4..]);
    assert b[4..][2..] == b[6..];
    TwoBits(r6, b[6..]);
  }

  lemma TwoBits(r: bv16, b: seq<bool>)
    requires 2 <= |b|
    ensures CrcBits(r, b) == CrcBits(BitIn(BitIn(r, b[0]), b[1]), b[2..])
  {
  }

  // Two, four and eight steps at once: what leaves the register is folded in all together.

  function OneStep(x: bv16): bv16 {
    (x >> 1) ^ ((x & 1) << 15) ^ ((x & 1) << 10) ^ ((x & 1) << 3)
  }

  function TwoSteps(x: bv16): bv16 {
    (x >> 2) ^ ((x & 3) << 14) ^ ((x & 3) << 9) ^ ((x & 3) << 2)
  }

  function FourSteps(x: bv16): bv16 {
    (x >> 4) ^ ((x & 0xF) << 12) ^ ((x & 0xF) << 7) ^ (x & 0xF)
  }

  function EightSteps(x: bv16): bv16 {
    Xor(Upper(x), Folded(Lower(x)))
  }

  lemma OneStepOdd(x: bv16)
    requires x & 1 == 1
    ensures (x >> 1) ^ 0x8408 == (x >> 1) ^ ((x & 1) << 15) ^ ((x & 1) << 10) ^ ((x & 1) << 3)
  {
  }

  lemma OneStepEven(x: bv16)
    requires x & 1 != 1
    ensures x >> 1 == (x >> 1) ^ ((x & 1) << 15) ^ ((x & 1) << 10) ^ ((x & 1) << 3)
  {
  }

  lemma OneIsOne(x: bv16)
    ensures BitStep(x) == OneStep(x)
  {
    if x & 1 == 1 {
      OneStepOdd(x);
    } else {
      OneStepEven(x);
    }
  }

  lemma TwoIsOneTwice(x: bv16)
    ensures OneStep(OneStep(x)) == TwoSteps(x)
  {
  }

  lemma FourIsTwoTwice(x: bv16)
    ensures TwoSteps(TwoSteps(x)) == FourSteps(x)
  {
  }

  // The eight steps split into what the two nibbles of the low octet fold in.

  function Nibble(x: bv16): bv16 {
    x & 0xF
  }

  function ShrNibble(x: bv16): bv16 {
    x >> 4
  }

  function Mixed(l: bv16): bv16 {
    (l << 12) ^ (l << 7) ^ l
  }

  function MixedShifted(l: bv16): bv16 {
    (l << 8) ^ (l << 3)
  }

  function Crossed(x: bv16): bv16 {
    ((x >> 4) ^ x) & 0xF
  }

  lemma FourStepsParts(x: bv16)
    ensures FourSteps(x) == Xor(ShrNibble(x), Mixed(Nibble(x)))
  {
    Associate(x >> 4, (x & 0xF) << 12, (x & 0xF) << 7, x & 0xF);
  }

  lemma Associate(a: bv16, b: bv16, c: bv16, d: bv16)
    ensures a ^ b ^ c ^ d == a ^ (b ^ c ^ d)
  {
  }

  lemma ShiftedSteps(x: bv16)
    ensures ShrNibble(FourSteps(x)) == Xor(Upper(x), MixedShifted(Nibble(x)))
  {
  }

  lemma CrossedSteps(x: bv16)
    ensures Nibble(FourSteps(x)) == Crossed(x)
  {
  }

  lemma FoldedNibbles(x: bv16)
    ensures Folded(Lower(x)) == Xor(MixedShifted(Nibble(x)), Mixed(Crossed(x)))
  {
  }

  lemma EightIsFourTwice(x: bv16)
    ensures FourSteps(FourSteps(x)) == EightSteps(x)
  {
    hide FourSteps, Nibble, ShrNibble, Mixed, MixedShifted, Crossed, Folded, Lower, Upper, Xor;
    FourStepsParts(FourSteps(x));
    ShiftedSteps(x);
    CrossedSteps(x);
    FoldedNibbles(x);
    PullRight(Upper(x), MixedShifted(Nibble(x)), Mixed(Crossed(x)));
  }

  lemma TwoSingleSteps(x: bv16)
    ensures BitStep(BitStep(x)) == TwoSteps(x)
  {
    hide *;
    OneIsOne(x);
    OneIsOne(OneStep(x));
    TwoIsOneTwice(x);
  }

  lemma EightSingleSteps(x: bv16)
    ensures BitStep(BitStep(BitStep(BitStep(BitStep(BitStep(BitStep(BitStep(x)))))))) == EightSteps(x)
  {
    hide *;
    TwoSingleSteps(x);
    TwoSingleSteps(TwoSteps(x));
    FourIsTwoTwice(x);
    TwoSingleSteps(FourSteps(x));
    TwoSingleSteps(TwoSteps(FourSteps(x)));
    FourIsTwoTwice(FourSteps(x));
    EightIsFourTwice(x);
  }

  lemma UpperUnchanged(r: bv16, o: bv8)
    ensures Upper(Xor(r, Wide(o))) == Upper(r)
  {
  }

  lemma FcsCharIsEightSteps(r: bv16, o: bv8)
    ensures FcsChar(r, o) == EightSteps(Xor(r, Wide(o)))
  {
    UpperUnchanged(r, o);
    hide Folded, Lower, Upper, Xor, Wide;
  }

  /** The branch-free octet step is eight steps of the bit-serial register. */
  lemma FcsCharIsSerial(r: bv16, o: bv8)
    ensures FcsChar(r, o) == CrcBits(r, OctetBits(o))
  {
    hide *;
    FcsCharIsEightSteps(r, o);
    EightSingleSteps(Xor(r, Wide(o)));
    EightBitSteps(r, o);
  }

  lemma {:induction false} CrcBitsConcat(r: bv16, a: seq<bool>, b: seq<bool>)
    ensures CrcBits(r, a + b) == CrcBits(CrcBits(r, a), b)
    decreases |a|
  {
    if a == [] {
      assert a + b == b;
    } else {
      assert (a + b)[1..] == a[1..] + b;
      CrcBitsConcat(BitIn(r, a[0]), a[1..], b);
    }
  }

  lemma {:induction false} CrcIsSerial(r: bv16, s: seq<bv8>)
    ensures Crc(r, s) == CrcBits(r, Bits(s))
    decreases |s|
  {
    if s != [] {
      FcsCharIsSerial(r, s[0]);
      CrcBitsConcat(r, OctetBits(s[0]), Bits(s[1..]));
      CrcIsSerial(FcsChar(r, s[0]), s[1..]);
    }
  }

  lemma {:induction false} CrcConcat(r: bv16, a: seq<bv8>, b: seq<bv8>)
    ensures Crc(r, a + b) == Crc(Crc(r, a), b)
    decreases |a|
  {
    if a == [] {
      assert a + b == b;
    } else {
      assert (a + b)[1..] == a[1..] + b;
      CrcConcat(FcsChar(r, a[0]), a[1..], b);
    }
  }

  // ----- Acceptance -----

  lemma GoodAfterTwo(r: bv16, lo: bv8, hi: bv8)
    ensures FcsChar(FcsChar(r, lo), hi) == GOOD
       <==> lo == LowOctet(FcsFinish(r)) && hi == HighOctet(FcsFinish(r))
  {
  }

  lemma CrcOfTwo(r: bv16, lo: bv8, hi: bv8)
    ensures Crc(r, [lo, hi]) == FcsChar(FcsChar(r, lo), hi)
  {
    assert [lo, hi][1..] == [hi];
    assert Crc(FcsChar(r, lo), [hi]) == Crc(FcsChar(FcsChar(r, lo), hi), []);
  }

  lemma AcceptedTail(body: seq<bv8>, lo: bv8, hi: bv8)
    ensures Accepted(body + [lo, hi]) <==> [lo, hi] == FcsOctets(body)
  {
    CrcIsSerial(INIT, body + [lo, hi]);
    CrcConcat(INIT, body, [lo, hi]);
    CrcOfTwo(Crc(INIT, body), lo, hi);
    GoodAfterTwo(Crc(INIT, body), lo, hi);
  }

  /** What the sender appends is always accepted. */
  lemma SealedIsAccepted(body: seq<bv8>)
    ensures Accepted(body + FcsOctets(body))
  {
    AcceptedTail(body, FcsOctets(body)[0], FcsOctets(body)[1]);
  }

  // ----- Error detection -----

  lemma BitInInjective(a: bv16, b: bv16, bit: bool)
    requires BitIn(a, bit) == BitIn(b, bit)
    ensures a == b
  {
  }

  lemma {:induction false} CrcBitsInjective(a: bv16, b: bv16, bits: seq<bool>)
    requires CrcBits(a, bits) == CrcBits(b, bits)
    ensures a == b
    decreases |bits|
  {
    if bits != [] {
      CrcBitsInjective(BitIn(a, bits[0]), BitIn(b, bits[0]), bits[1..]);
      BitInInjective(a, b, bits[0]);
    }
  }

  lemma CrcInjective(a: bv16, b: bv16, s: seq<bv8>)
    requires Crc(a, s) == Crc(b, s)
    ensures a == b
  {
    CrcIsSerial(a, s);
    CrcIsSerial(b, s);
    CrcBitsInjective(a, b, Bits(s));
  }

  /** All ones except for the j topmost bits. */
  function LowMask(j: nat): bv16 {
    if j == 0 then 0xFFFF else Shr(LowMask(j - 1))
  }

  predicate Within(z: bv16, h: bv16) {
    z & h == z
  }

  lemma LowMaskOdd(j: nat)
    requires j < 16
    ensures Odd(LowMask(j))
  {
    assert LowMask(3) == 0x1FFF;
    assert LowMask(6) == 0x03FF;
    assert LowMask(9) == 0x007F;
    assert LowMask(12) == 0x000F;
    assert LowMask(15) == 0x0001;
  }

  /** One step backwards: if the difference after a step is confined to the mask shifted
      down, then no one left the register and the difference before it is confined to the mask. */
  lemma BackOneStep(z: bv16, h: bv16)
    requires Within(BitStep(z), Shr(h))
    ensures !Odd(z) && Within(z, h)
  {
  }

  lemma FlipWithin(d: bv16, h: bv16)
    requires Within(Xor(d, 1), h) && Odd(h)
    ensures Within(d, h)
  {
  }

  lemma StepDifference(r: bv16, s: bv16, x: bool, y: bool)
    ensures Xor(BitIn(r, x), BitIn(s, y)) == BitStep(if x == y then Xor(r, s) else Xor(Xor(r, s), 1))
  {
    CancelBoth(r, s, 1);
    PullLeft(r, s, 1);
    PullRight(r, s, 1);
    hide Xor, BitStep;
    BitStepXor(if x then Xor(r, 1) else r, if y then Xor(s, 1) else s);
  }

  lemma NoDifference(r: bv16, h: bv16)
    ensures Within(Xor(r, r), h) && Odd(Xor(Xor(r, r), 1))
  {
  }

  /** Two registers that agree after at most 16 bits differed only in their low bits, and if
      they did not differ at all then neither did the bits. */
  lemma {:induction false} Window(r: bv16, s: bv16, x: seq<bool>, y: seq<bool>, j: nat)
    requires |x| == |y| && j + |x| == 16
    requires CrcBits(r, x) == CrcBits(s, y)
    ensures Within(Xor(r, s), LowMask(j))
    ensures r == s ==> x == y
    decreases |x|
  {
    hide BitIn, BitStep, Xor, Within, Odd, Shr;
    NoDifference(r, LowMask(j));
    if x != [] {
      Window(BitIn(r, x[0]), BitIn(s, y[0]), x[1..], y[1..], j + 1);
      StepDifference(r, s, x[0], y[0]);
      LowMaskOdd(j);
      var z := if x[0] == y[0] then Xor(r, s) else Xor(Xor(r, s), 1);
      BackOneStep(z, LowMask(j));
      if x[0] != y[0] {
        FlipWithin(Xor(r, s), LowMask(j));
      }
      if r == s {
        assert x == [x[0]] + x[1..] && y == [y[0]] + y[1..];
      }
    }
  }

  /** The same for shorter windows: append equal bits to both. */
  lemma {:induction false} ShortWindow(r: bv16, x: seq<bool>, y: seq<bool>)
    requires |x| == |y| <= 16 && CrcBits(r, x) == CrcBits(r, y)
    ensures x == y
    decreases 16 - |x|
  {
    if |x| == 16 {
      Window(r, r, x, y, 0);
    } else {
      CrcBitsConcat(r, x, [false]);
      CrcBitsConcat(r, y, [false]);
      ShortWindow(r, x + [false], y + [false]);
      assert x == (x + [false])[..|x|] && y == (y + [false])[..|y|];
    }
  }

  /** Bit strings that end in the same register and differ, if at all, only within some
      window of 16 bits are equal: every error burst of at most 16 bits is detected. */
  lemma BurstDetected(r: bv16, a: seq<bool>, b: seq<bool>, i: nat, j: nat)
    requires |a| == |b| && i <= j <= |a| && j - i <= 16
    requires a[..i] == b[..i] && a[j..] == b[j..]
    requires CrcBits(r, a) == CrcBits(r, b)
    ensures a == b
  {
    hide *;
    CutBits(r, a, i, j);
    CutBits(r, b, i, j);
    var r0 := CrcBits(r, a[..i]);
    CrcBitsInjective(CrcBits(r0, a[i..j]), CrcBits(r0, b[i..j]), a[j..]);
    ShortWindow(r0, a[i..j], b[i..j]);
    assert a == a[..i] + a[i..j] + a[j..] && b == b[..i] + b[i..j] + b[j..];
  }

  lemma CutBits(r: bv16, a: seq<bool>, i: nat, j: nat)
    requires i <= j <= |a|
    ensures CrcBits(r, a) == CrcBits(CrcBits(CrcBits(r, a[..i]), a[i..j]), a[j..])
  {
    assert a == a[..i] + a[i..];
    CrcBitsConcat(r, a[..i], a[i..]);
    assert a[i..] == a[i..j] + a[j..];
    CrcBitsConcat(CrcBits(r, a[..i]), a[i..j], a[j..]);
  }

  /** Exclusive or of the n lowest bits. */
  function ParityOf(r: bv16, n: nat): bool {
    n != 0 && Odd(r) != ParityOf(Shr(r), n - 1)
  }

  function Parity(r: bv16): bool {
    ParityOf(r, 16)
  }

  /** The four lowest bits at once, to evaluate constants. */
  function NibbleParity(r: bv16): bool {
    (Odd(r) != Odd(Shr(r))) != (Odd(Shr(Shr(r))) != Odd(Shr(Shr(Shr(r)))))
  }

  lemma NibbleStep(r: bv16, n: nat)
    ensures ParityOf(r, n + 4) == (NibbleParity(r) != ParityOf(ShrFour(r), n))
  {
    hide Odd, Shr;
    var r1, r2, r3 := Shr(r), Shr(Shr(r)), Shr(Shr(Shr(r)));
    assert ParityOf(r, n + 4) == (Odd(r) != ParityOf(r1, n + 3));
    assert ParityOf(r1, n + 3) == (Odd(r1) != ParityOf(r2, n + 2));
    assert ParityOf(r2, n + 2) == (Odd(r2) != ParityOf(r3, n + 1));
  }

  lemma ParityNibbles(a: bv16, b: bv16, c: bv16, d: bv16)
    requires b == ShrFour(a) && c == ShrFour(b) && d == ShrFour(c)
    ensures Parity(a) == ((NibbleParity(a) != NibbleParity(b)) != (NibbleParity(c) != NibbleParity(d)))
  {
    hide NibbleParity, ShrFour;
    NibbleStep(a, 12);
    NibbleStep(b, 8);
    NibbleStep(c, 4);
    NibbleStep(d, 0);
  }

  lemma ParityConstants()
    ensures Parity(0x8408) && Parity(0x0001) && !Parity(INIT) && !Parity(GOOD)
  {
    hide ParityOf;
    ParityNibbles(0x8408, 0x0840, 0x0084, 0x0008);
    ParityNibbles(0x0001, 0, 0, 0);
    ParityNibbles(0xFFFF, 0x0FFF, 0x00FF, 0x000F);
    ParityNibbles(0xF0B8, 0x0F0B, 0x00F0, 0x000F);
  }

  lemma {:induction false} ParityXor(r: bv16, s: bv16, n: nat)
    ensures ParityOf(Xor(r, s), n) == (ParityOf(r, n) != ParityOf(s, n))
    decreases n
  {
    hide Odd, Xor, Shr;
    if n != 0 {
      OddXor(r, s);
      ShrXor(r, s);
      ParityXor(Shr(r), Shr(s), n - 1);
    }
  }

  lemma ShrWithin(r: bv16, h: bv16)
    requires Within(r, h)
    ensures Within(Shr(r), Shr(h))
  {
  }

  lemma NothingWithin(r: bv16)
    requires Within(r, LowMask(16))
    ensures !Odd(r)
  {
    assert LowMask(12) == 0x000F;
    assert LowMask(16) == 0;
  }

  lemma ShrTop(r: bv16)
    ensures Within(Shr(r), LowMask(1))
  {
    assert LowMask(1) == 0x7FFF;
  }

  /** Bits beyond the mask are zero and add nothing. */
  lemma {:induction false} ParityBeyond(r: bv16, n: nat)
    requires n <= 16 && Within(r, LowMask(16 - n))
    ensures ParityOf(r, n + 1) == ParityOf(r, n)
    decreases n
  {
    hide Odd, Xor, Shr, Within;
    if n == 0 {
      NothingWithin(r);
    } else {
      ShrWithin(r, LowMask(16 - n));
      ParityBeyond(Shr(r), n - 1);
    }
  }

  lemma BitStepParity(r: bv16)
    ensures Parity(BitStep(r)) == Parity(r)
  {
    hide Odd, Xor, Shr, Within, BitStep, LowMask;
    StepCase(r);
    ParityConstants();
    ShrTop(r);
    ParityXor(Shr(r), 0x8408, 16);
    ParityBeyond(Shr(r), 15);
  }

  lemma BitInParity(r: bv16, bit: bool)
    ensures Parity(BitIn(r, bit)) == (Parity(r) != bit)
  {
    ParityConstants();
    hide ParityOf, BitStep, Xor;
    BitStepParity(if bit then Xor(r, 1) else r);
    ParityXor(r, 1, 16);
  }

  /** Whether a bit string holds an odd number of ones. */
  function OddOnes(bits: seq<bool>): bool {
    bits != [] && bits[0] != OddOnes(bits[1..])
  }

  lemma {:induction false} CrcBitsParity(r: bv16, bits: seq<bool>)
    ensures Parity(CrcBits(r, bits)) == (Parity(r) != OddOnes(bits))
    decreases |bits|
  {
    hide Parity, BitIn;
    if bits != [] {
      BitInParity(r, bits[0]);
      CrcBitsParity(BitIn(r, bits[0]), bits[1..]);
    }
  }

  /** Every accepted frame has an even number of one bits, so an odd number of flipped
      bits is always detected. */
  lemma AcceptedIsEven(frame: seq<bv8>)
    requires Accepted(frame)
    ensures !OddOnes(Bits(frame))
  {
    ParityConstants();
    hide Parity, CrcBits, OddOnes, Bits;
    CrcBitsParity(INIT, Bits(frame));
  }

  lemma {:induction false} BitsLength(s: seq<bv8>)
    ensures |Bits(s)| == 8 * |s|
  {
    if s != [] {
      BitsLength(s[1..]);
    }
  }

  lemma {:induction false} BitsConcat(a: seq<bv8>, b: seq<bv8>)
    ensures Bits(a + b) == Bits(a) + Bits(b)
  {
    if a == [] {
      assert a + b == b;
    } else {
      assert (a + b)[1..] == a[1..] + b;
      BitsConcat(a[1..], b);
    }
  }

  lemma OctetBitsInjective(a: bv8, b: bv8)
    requires OctetBits(a) == OctetBits(b)
    ensures a == b
  {
    assert OctetBits(a)[0] == OctetBits(b)[0];
    assert OctetBits(a)[1] == OctetBits(b)[1];
    assert OctetBits(a)[2] == OctetBits(b)[2];
    assert OctetBits(a)[3] == OctetBits(b)[3];
    assert OctetBits(a)[4] == OctetBits(b)[4];
    assert OctetBits(a)[5] == OctetBits(b)[5];
    assert OctetBits(a)[6] == OctetBits(b)[6];
    assert OctetBits(a)[7] == OctetBits(b)[7];
  }

  lemma {:induction false} BitsInjective(a: seq<bv8>, b: seq<bv8>)
    requires |a| == |b| && Bits(a) == Bits(b)
    ensures a == b
  {
    if a != [] {
      assert Bits(a)[..8] == OctetBits(a[0]) && Bits(a)[8..] == Bits(a[1..]);
      assert Bits(b)[..8] == OctetBits(b[0]) && Bits(b)[8..] == Bits(b[1..]);
      hide OctetBits;
      OctetBitsInjective(a[0], b[0]);
      BitsInjective(a[1..], b[1..]);
      assert a == [a[0]] + a[1..] && b == [b[0]] + b[1..];
    }
  }

  /** A frame whose bits differ from those of an accepted frame only within a window of 16
      bits, at any bit offset and check octets included, is rejected. */
  lemma BurstRejected(a: seq<bv8>, b: seq<bv8>, i: nat, j: nat)
    requires Accepted(a) && |a| == |b| && a != b
    requires i <= j <= |Bits(a)| == |Bits(b)| && j - i <= 16
    requires Bits(a)[..i] == Bits(b)[..i] && Bits(a)[j..] == Bits(b)[j..]
    ensures !Accepted(b)
  {
    if Accepted(b) {
      BurstDetected(INIT, Bits(a), Bits(b), i, j);
      BitsInjective(a, b);
    }
  }

  /** Changing one octet or two adjacent octets of an accepted frame makes it rejected. */
  lemma OctetsRejected(a: seq<bv8>, b: seq<bv8>, i: nat, j: nat)
    requires Accepted(a) && |a| == |b| && a != b
    requires i <= j <= |a| && j - i <= 2
    requires a[..i] == b[..i] && a[j..] == b[j..]
    ensures !Accepted(b)
  {
    CutFrame(a, i, j);
    CutFrame(b, i, j);
    BurstRejected(a, b, 8 * i, 8 * j);
  }

  lemma CutFrame(a: seq<bv8>, i: nat, j: nat)
    requires i <= j <= |a|
    ensures 8 * j <= |Bits(a)| == 8 * |a|
    ensures Bits(a)[..8 * i] == Bits(a[..i]) && Bits(a)[8 * j..] == Bits(a[j..])
  {
    hide *;
    BitsLength(a);
    BitsLength(a[..i]);
    BitsLength(a[..j]);
    BitsConcat(a[..i], a[i..]);
    BitsConcat(a[..j], a[j..]);
    assert a == a[..i] + a[i..] == a[..j] + a[j..];
  }

  // ----- A known value -----

  lemma CrcNext(r: bv16, s: seq<bv8>, next: bv16)
    requires s != [] && FcsChar(r, s[0]) == next
    ensures Crc(r, s) == Crc(next, s[1..])
  {
    hide FcsChar;
  }

  lemma CheckSteps()
    ensures FcsChar(0xFFFF, 0x31) == 0x2F8D
    ensures FcsChar(0x2F8D, 0x32) == 0x4D53
    ensures FcsChar(0x4D53, 0x33) == 0x634B
    ensures FcsChar(0x634B, 0x34) == 0x8B13
    ensures FcsChar(0x8B13, 0x35) == 0x44BF
    ensures FcsChar(0x44BF, 0x36) == 0x198D
    ensures FcsChar(0x198D, 0x37) == 0x1AC8
    ensures FcsChar(0x1AC8, 0x38) == 0xF795
    ensures FcsChar(0xF795, 0x39) == 0x6F91
  {
  }

  /** The check octets of the digits 1 to 9 are those of every implementation of this code. */
  lemma CheckValue()
    ensures FcsOctets([0x31, 0x32, 0x33, 0x34, 0x35, 0x36, 0x37, 0x38, 0x39]) == [0x6E, 0x90]
  {
    CheckSteps();
    CheckCrc();
    hide Crc, FcsChar;
    FinishCheck();
  }

  lemma FinishCheck()
    ensures LowOctet(FcsFinish(0x6F91)) == 0x6E && HighOctet(FcsFinish(0x6F91)) == 0x90
  {
  }

  lemma CheckCrc()
    ensures Crc(INIT, [0x31, 0x32, 0x33, 0x34, 0x35, 0x36, 0x37, 0x38, 0x39]) == 0x6F91
  {
    hide Crc, FcsChar;
    CheckSteps();
    var s: seq<bv8> := [0x31, 0x32, 0x33, 0x34, 0x35, 0x36, 0x37, 0x38, 0x39];
    CrcNext(0xFFFF, s[0..], 0x2F8D);
    assert s[0..][1..] == s[1..];
    CrcNext(0x2F8D, s[1..], 0x4D53);
    assert s[1..][1..] == s[2..];
    CrcNext(0x4D53, s[2..], 0x634B);
    assert s[2..][1..] == s[3..];
    CrcNext(0x634B, s[3..], 0x8B13);
    assert s[3..][1..] == s[4..];
    CrcNext(0x8B13, s[4..], 0x44BF);
    assert s[4..][1..] == s[5..];
    CrcNext(0x44BF, s[5..], 0x198D);
    assert s[5..][1..] == s[6..];
    CrcNext(0x198D, s[6..], 0x1AC8);
    assert s[6..][1..] == s[7..];
    CrcNext(0x1AC8, s[7..], 0xF795);
    assert s[7..][1..] == s[8..];
    CrcNext(0xF795, s[8..], 0x6F91);
    assert s[8..][1..] == s[9..];
    assert s[0..] == s && s[9..] == [];
    CrcNone(0x6F91);
  }

  lemma CrcNone(r: bv16)
    ensures Crc(r, []) == r
  {
  }
}
