/** `zlib.crc32`: the reflected polynomial 0xEDB88320 with initial and final complement. */
module Crc32 {
  type byte = b: nat | b < 256

  type word = c: nat | c < 0x1_0000_0000

  const POLY: word := 0xEDB88320
  const ONES: word := 0xFFFFFFFF

  function Pow2(k: nat): (p: nat)
    ensures p > 0
  {
    if k == 0 then 1 else 2 * Pow2(k - 1)
  }

  lemma PowerValues()
    ensures Pow2(31) == 0x8000_0000 && Pow2(32) == 0x1_0000_0000
  {
    assert Pow2(4) == 16;
    assert Pow2(8) == 0x100;
    assert Pow2(12) == 0x1000;
    assert Pow2(16) == 0x1_0000;
    assert Pow2(20) == 0x10_0000;
    assert Pow2(24) == 0x100_0000;
    assert Pow2(28) == 0x1000_0000;
  }

  /** Exclusive or of the low `k` bits. */
  function XorBits(a: nat, b: nat, k: nat): (r: nat)
    ensures r < Pow2(k)
    decreases k, a, b
  {
    if k == 0 then 0 else (if a % 2 == b % 2 then 0 else 1) + 2 * XorBits(a / 2, b / 2, k - 1)
  }

  function Xor(a: word, b: word): word {
    PowerValues();
    XorBits(a, b, 32)
  }

  function Shift(c: word): word {
    if c % 2 == 1 then Xor(c / 2, POLY) else c / 2
  }

  function Shifts(c: word, n: nat): word
    decreases n, c
  {
    if n == 0 then c else Shifts(Shift(c), n - 1)
  }

  function Absorb(c: word, b: byte): word {
    Shifts(Xor(c, b), 8)
  }

  /** The shift register after the data has gone through it. */
  function Register(c: word, data: seq<byte>): word {
    if data == [] then c else Absorb(Register(c, data[..|data| - 1]), data[|data| - 1])
  }

  function Checksum(data: seq<byte>): word {
    Xor(Register(ONES, data), ONES)
  }

  lemma {:induction false} XorBitsUndo(a: nat, b: nat, k: nat)
    requires a < Pow2(k)
    ensures XorBits(XorBits(a, b, k), b, k) == a
    decreases k
  {
    if k > 0 {
      XorBitsUndo(a / 2, b / 2, k - 1);
      var r := XorBits(a, b, k);
      assert r / 2 == XorBits(a / 2, b / 2, k - 1);
    }
  }

  lemma {:induction false} XorBitsLaws(a: nat, b: nat, c: nat, k: nat)
    ensures XorBits(a, b, k) == XorBits(b, a, k)
    ensures XorBits(XorBits(a, b, k), c, k) == XorBits(a, XorBits(b, c, k), k)
    decreases k
  {
    if k > 0 {
      XorBitsLaws(a / 2, b / 2, c / 2, k - 1);
      var ab, bc := XorBits(a, b, k), XorBits(b, c, k);
      assert ab / 2 == XorBits(a / 2, b / 2, k - 1) && bc / 2 == XorBits(b / 2, c / 2, k - 1);
    }
  }

  /** The top bit of the result is the top bit of the one operand that has it. */
  lemma {:induction false} XorBitsTop(a: nat, b: nat, k: nat)
    requires a < Pow2(k) <= b < Pow2(k + 1)
    ensures XorBits(a, b, k + 1) >= Pow2(k)
    decreases k
  {
    if k > 0 {
      XorBitsTop(a / 2, b / 2, k - 1);
    }
  }

  lemma XorUndo(a: word, b: word)
    ensures Xor(Xor(a, b), b) == a
    ensures Xor(a, b) == Xor(b, a)
  {
    PowerValues();
    XorBitsUndo(a, b, 32);
    XorBitsLaws(a, b, 0, 32);
  }

  lemma ShiftInjective(c: word, d: word)
    requires Shift(c) == Shift(d)
    ensures c == d
  {
    PowerValues();
    if c % 2 == 1 {
      XorUndo(c / 2, POLY);
      XorBitsTop(c / 2, POLY, 31);
    }
    if d % 2 == 1 {
      XorUndo(d / 2, POLY);
      XorBitsTop(d / 2, POLY, 31);
    }
  }

  lemma {:induction false} ShiftsInjective(c: word, d: word, n: nat)
    requires Shifts(c, n) == Shifts(d, n)
    ensures c == d
    decreases n
  {
    if n > 0 {
      ShiftsInjective(Shift(c), Shift(d), n - 1);
      ShiftInjective(c, d);
    }
  }

  lemma AbsorbInjective(c: word, d: word, b: byte)
    requires c != d
    ensures Absorb(c, b) != Absorb(d, b)
  {
    if Absorb(c, b) == Absorb(d, b) {
      ShiftsInjective(Xor(c, b), Xor(d, b), 8);
      XorUndo(c, b);
      XorUndo(d, b);
    }
  }

  /** From different registers the same data never leads to the same register. */
  lemma {:induction false} RegisterInjective(c: word, d: word, data: seq<byte>)
    requires c != d
    ensures Register(c, data) != Register(d, data)
  {
    if data != [] {
      var n := |data| - 1;
      RegisterInjective(c, d, data[..n]);
      AbsorbInjective(Register(c, data[..n]), Register(d, data[..n]), data[n]);
    }
  }

  lemma {:induction false} RegisterConcat(c: word, a: seq<byte>, b: seq<byte>)
    ensures Register(c, a + b) == Register(Register(c, a), b)
  {
    if b == [] {
      assert a + b == a;
    } else {
      var n := |b| - 1;
      RegisterConcat(c, a, b[..n]);
      assert (a + b)[..|a + b| - 1] == a + b[..n];
    }
  }

  /** Data that differs somewhere between a common head and a common tail has another
      checksum as soon as the differing parts lead to different registers. */
  lemma ChecksumDiffers(head: seq<byte>, good: seq<byte>, bad: seq<byte>, tail: seq<byte>)
    requires Register(Register(ONES, head), good) != Register(Register(ONES, head), bad)
    ensures Checksum(head + bad + tail) != Checksum(head + good + tail)
  {
    RegisterConcat(ONES, head, good);
    RegisterConcat(ONES, head, bad);
    RegisterConcat(ONES, head + good, tail);
    RegisterConcat(ONES, head + bad, tail);
    RegisterInjective(Register(ONES, head + good), Register(ONES, head + bad), tail);
    XorUndo(Register(ONES, head + good + tail), ONES);
    XorUndo(Register(ONES, head + bad + tail), ONES);
  }

  lemma {:induction false} XorBitsShort(a: nat, b: nat, k: nat)
    requires a < Pow2(k) && b < Pow2(k)
    ensures XorBits(a, b, k + 1) == XorBits(a, b, k)
    decreases k
  {
    if k > 0 {
      XorBitsShort(a / 2, b / 2, k - 1);
    }
  }

  /** The shift register is linear over exclusive or. */
  lemma ShiftLinear(x: word, y: word)
    ensures Shift(Xor(x, y)) == Xor(Shift(x), Shift(y))
  {
    PowerValues();
    var a, b := x / 2, y / 2;
    XorBitsShort(a, b, 31);
    assert Xor(x, y) / 2 == Xor(a, b);
    assert Xor(x, y) % 2 == if x % 2 == y % 2 then 0 else 1;
    XorBitsLaws(a, b, POLY, 32);
    XorBitsLaws(a, POLY, b, 32);
    XorBitsLaws(a, POLY, Xor(b, POLY), 32);
    XorBitsLaws(POLY, b, POLY, 32);
    XorUndo(b, POLY);
    XorUndo(a, POLY);
  }

  lemma {:induction false} ShiftsLinear(x: word, y: word, n: nat)
    ensures Shifts(Xor(x, y), n) == Xor(Shifts(x, n), Shifts(y, n))
    decreases n
  {
    if n > 0 {
      ShiftLinear(x, y);
      ShiftsLinear(Shift(x), Shift(y), n - 1);
    }
  }

  lemma {:induction false} ShiftsAdd(c: word, m: nat, n: nat)
    ensures Shifts(c, m + n) == Shifts(Shifts(c, m), n)
    decreases m
  {
    if m > 0 {
      ShiftsAdd(Shift(c), m - 1, n);
    }
  }

  /** `x` moved up by `n` bits. */
  function Up(x: nat, n: nat): nat
    decreases n, x
  {
    if n == 0 then x else 2 * Up(x, n - 1)
  }

  /** Bits the register has not reached yet only move down. */
  lemma {:induction false} ShiftsDown(x: nat, n: nat)
    requires Up(x, n) < 0x1_0000_0000
    ensures Shifts(Up(x, n), n) == x
    decreases n
  {
    if n > 0 {
      assert Shift(Up(x, n)) == Up(x, n - 1);
      ShiftsDown(x, n - 1);
    }
  }

  lemma {:induction false} XorBitsDisjoint(lo: nat, hi: nat, n: nat, k: nat)
    requires lo < Pow2(n) && n <= k && lo + Up(hi, n) < Pow2(k)
    ensures XorBits(lo, Up(hi, n), k) == lo + Up(hi, n)
    decreases k
  {
    if n > 0 {
      XorBitsDisjoint(lo / 2, hi, n - 1, k - 1);
    } else {
      XorBitsZero(hi, k);
    }
  }

  lemma {:induction false} XorBitsZero(a: nat, k: nat)
    requires a < Pow2(k)
    ensures XorBits(0, a, k) == a
    decreases k
  {
    if k > 0 {
      XorBitsZero(a / 2, k - 1);
    }
  }

  lemma UpByte(x: nat)
    ensures Up(x, 8) == 256 * x
  {
    assert Up(x, 1) == 2 * x;
    assert Up(x, 2) == 4 * x;
    assert Up(x, 3) == 8 * x;
    assert Up(x, 4) == 16 * x;
    assert Up(x, 5) == 32 * x;
    assert Up(x, 6) == 64 * x;
    assert Up(x, 7) == 128 * x;
  }

  /** Absorbing a word and stopping after eight shifts absorbs its low byte. */
  lemma AbsorbLow(c: word, lo: byte, hi: nat)
    requires lo + 256 * hi < 0x1_0000_0000
    ensures Shifts(Xor(c, lo + 256 * hi), 8) == Xor(Absorb(c, lo), hi)
  {
    PowerValues();
    assert Pow2(8) == 256 by { assert Pow2(4) == 16; }
    UpByte(hi);
    XorBitsDisjoint(lo, hi, 8, 32);
    XorBitsLaws(c, lo, 256 * hi, 32);
    ShiftsLinear(Xor(c, lo), 256 * hi, 8);
    ShiftsDown(hi, 8);
  }

  /** Up to four bytes as the little-endian word the register sees. */
  function Word(b: seq<byte>): (w: nat)
    ensures |b| <= 4 ==> w < 0x1_0000_0000
    ensures |b| <= 3 ==> w < 0x100_0000
    ensures |b| <= 2 ==> w < 0x1_0000
    ensures |b| <= 1 ==> w < 0x100
    ensures b == [] ==> w == 0
  {
    if b == [] then 0 else b[0] + 256 * Word(b[1..])
  }

  lemma {:induction false} RegisterWord(c: word, b: seq<byte>)
    requires |b| <= 4
    ensures Register(c, b) == Shifts(Xor(c, Word(b)), 8 * |b|)
    decreases |b|
  {
    if b == [] {
      PowerValues();
      XorBitsZero(c, 32);
      XorUndo(c, 0);
    } else {
      var rest := b[1..];
      assert b == [b[0]] + rest;
      RegisterConcat(c, [b[0]], rest);
      assert [b[0]][..0] == [];
      RegisterWord(Absorb(c, b[0]), rest);
      AbsorbLow(c, b[0], Word(rest));
      ShiftsAdd(Xor(c, Word(b)), 8, 8 * |rest|);
    }
  }

  lemma {:induction false} WordInjective(a: seq<byte>, b: seq<byte>)
    requires |a| == |b| && Word(a) == Word(b)
    ensures a == b
  {
    if a != [] {
      assert a[0] == Word(a) % 256 == b[0];
      WordInjective(a[1..], b[1..]);
      assert a == [a[0]] + a[1..] && b == [b[0]] + b[1..];
    }
  }

  /** Any damage confined to four neighbouring bytes changes the checksum. */
  lemma DetectsBurst(head: seq<byte>, good: seq<byte>, bad: seq<byte>, tail: seq<byte>)
    requires |good| == |bad| <= 4 && good != bad
    ensures Checksum(head + bad + tail) != Checksum(head + good + tail)
  {
    var c := Register(ONES, head);
    RegisterWord(c, good);
    RegisterWord(c, bad);
    if Register(c, good) == Register(c, bad) {
      ShiftsInjective(Xor(c, Word(good)), Xor(c, Word(bad)), 8 * |good|);
      XorUndo(c, Word(good));
      XorUndo(c, Word(bad));
      XorUndo(Word(good), c);
      XorUndo(Word(bad), c);
      WordInjective(good, bad);
    }
    ChecksumDiffers(head, good, bad, tail);
  }

  // ----- a check value -----

  lemma {:induction false} LowBits(a: nat, b: nat, x: nat, y: nat, k: nat, n: nat)
    requires x < Pow2(n) && y < Pow2(n)
    ensures XorBits(Up(a, n) + x, Up(b, n) + y, k + n) == Up(XorBits(a, b, k), n) + XorBits(x, y, n)
    decreases n
  {
    if n > 0 {
      LowBits(a, b, x / 2, y / 2, k, n - 1);
      assert (Up(a, n) + x) / 2 == Up(a, n - 1) + x / 2 && (Up(b, n) + y) / 2 == Up(b, n - 1) + y / 2;
    }
  }

  lemma UpDigit(x: nat)
    ensures Up(x, 4) == 16 * x
  {
    assert Up(x, 1) == 2 * x;
    assert Up(x, 2) == 4 * x;
    assert Up(x, 3) == 8 * x;
  }

  /** Exclusive or, one hexadecimal digit more. */
  lemma LowDigit(a: nat, b: nat, x: nat, y: nat, k: nat)
    requires x < 16 && y < 16
    ensures XorBits(16 * a + x, 16 * b + y, k + 4) == 16 * XorBits(a, b, k) + XorBits(x, y, 4)
  {
    assert Pow2(4) == 16;
    UpDigit(a);
    UpDigit(b);
    UpDigit(XorBits(a, b, k));
    LowBits(a, b, x, y, k, 4);
    hide XorBits, Up;
  }

  lemma Digits()
    ensures XorBits(0x0, 0xE, 4) == 0xE && XorBits(0x3, 0xD, 4) == 0xE && XorBits(0xB, 0xB, 4) == 0 && XorBits(0x6, 0x8, 4) == 0xE
  {
  }

  lemma MoreDigits()
    ensures XorBits(0xE, 0x8, 4) == 0x6 && XorBits(0x2, 0x3, 4) == 0x1 && XorBits(0x0, 0x2, 4) == 0x2 && XorBits(0xC, 0x0, 4) == 0xC
  {
  }

  lemma HighDigits()
    ensures XorBits(0x03B6, 0xEDB8, 16) == 0xEE0E
  {
    hide XorBits;
    Digits();
    LowDigit(0x0, 0xE, 0x3, 0xD, 4);
    LowDigit(0x03, 0xED, 0xB, 0xB, 8);
    LowDigit(0x03B, 0xEDB, 0x6, 0x8, 12);
  }

  lemma AllDigits()
    ensures XorBits(0x03B6E20C, 0xEDB88320, 32) == 0xEE0E612C
  {
    hide XorBits;
    MoreDigits();
    HighDigits();
    LowDigit(0x03B6, 0xEDB8, 0xE, 0x8, 16);
    LowDigit(0x03B6E, 0xEDB88, 0x2, 0x3, 20);
    LowDigit(0x03B6E2, 0xEDB883, 0x0, 0x2, 24);
    LowDigit(0x03B6E20, 0xEDB8832, 0xC, 0x0, 28);
  }

  lemma {:induction false} Complement(a: nat, k: nat)
    requires a < Pow2(k)
    ensures XorBits(Pow2(k) - 1, a, k) == Pow2(k) - 1 - a
    decreases k
  {
    if k > 0 {
      Complement(a / 2, k - 1);
    }
  }

  lemma Inverted(a: word)
    ensures Xor(ONES, a) == Xor(a, ONES) == 0xFFFFFFFF - a
  {
    PowerValues();
    Complement(a, 32);
    XorUndo(ONES, a);
    hide XorBits;
  }

  lemma EightShifts()
    ensures Shifts(1, 8) == 0x77073096
  {
    PowerValues();
    XorBitsZero(0xEDB88320, 32);
    AllDigits();
    hide XorBits;
    assert Shift(1) == 0xEDB88320;
    assert Shift(0xEDB88320) == 0x76DC4190 && Shift(0x76DC4190) == 0x3B6E20C8 && Shift(0x3B6E20C8) == 0x1DB71064;
    assert Shift(0x1DB71064) == 0x0EDB8832 && Shift(0x0EDB8832) == 0x076DC419;
    assert Shift(0x076DC419) == 0xEE0E612C && Shift(0xEE0E612C) == 0x77073096;
    hide Shift;
    assert Shifts(0x77073096, 0) == 0x77073096;
    assert Shifts(0xEE0E612C, 1) == 0x77073096;
    assert Shifts(0x076DC419, 2) == 0x77073096;
    assert Shifts(0x0EDB8832, 3) == 0x77073096;
    assert Shifts(0x1DB71064, 4) == 0x77073096;
    assert Shifts(0x3B6E20C8, 5) == 0x77073096;
    assert Shifts(0x76DC4190, 6) == 0x77073096;
    assert Shifts(0xEDB88320, 7) == 0x77073096;
  }

  /** Two values `zlib.crc32` is known to give. */
  lemma CheckValues()
    ensures Checksum([]) == 0
    ensures Checksum([0xFF, 0xFF, 0xFF, 0xFE]) == 0x88F8CF69
  {
    Inverted(ONES);
    var data: seq<byte> := [0xFF, 0xFF, 0xFF, 0xFE];
    RegisterWord(ONES, data);
    WordOfCheck();
    Inverted(0xFEFFFFFF);
    ShiftsAdd(0x0100_0000, 24, 8);
    UpTo24();
    ShiftsDown(1, 24);
    EightShifts();
    Inverted(0x77073096);
    hide Shifts, Xor, Register, Up, Word;
  }

  lemma WordOfCheck()
    ensures Word([0xFF, 0xFF, 0xFF, 0xFE]) == 0xFEFFFFFF
  {
    var data: seq<byte> := [0xFF, 0xFF, 0xFF, 0xFE];
    assert data[1..] == [0xFF, 0xFF, 0xFE] && data[1..][1..] == [0xFF, 0xFE] && data[1..][1..][1..] == [0xFE];
    assert Word([0xFE]) == 0xFE;
    assert Word([0xFF, 0xFE]) == 0xFEFF;
    assert Word([0xFF, 0xFF, 0xFE]) == 0xFEFFFF;
  }

  lemma UpTo24()
    ensures Up(1, 24) == 0x0100_0000
  {
    UpByte(1);
    assert Up(1, 12) == 0x1000 by { UpBy(1, 8, 4); UpDigit(0x100); }
    UpBy(1, 12, 8);
    UpByte(0x1000);
    UpBy(1, 20, 4);
    UpDigit(0x10_0000);
    hide Up;
  }

  lemma {:induction false} UpBy(x: nat, m: nat, n: nat)
    ensures Up(x, m + n) == Up(Up(x, m), n)
    decreases n
  {
    if n > 0 {
      UpBy(x, m, n - 1);
    }
  }
}
