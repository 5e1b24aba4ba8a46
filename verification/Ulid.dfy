/** Run identifiers: 48 bits of milliseconds and 80 random bits, written in base 32. */
module Ulid {
  import opened Prelude
  import opened Text
  import opened Radix

  /** Letters and bytes of an identifier, and how many of the bytes are the clock's. */
  const WIDTH: nat := 26
  const BYTES: nat := 16
  const CLOCK: nat := 6

  const ALPHABET: string := "0123456789ABCDEFGHJKMNPQRSTVWXYZ"

  function Letter(d: nat): char {
    if d < 32 then ALPHABET[d] else '~'
  }

  lemma Letters()
    ensures forall d | 0 <= d < 32 :: '0' <= Letter(d) <= 'Z'
    ensures Ascending(Letter, 32)
  {
    forall i, j | 0 <= i < j < 32 ensures Letter(i) < Letter(j) {
      LettersAscend(i, j);
    }
  }

  /** Where the alphabet skips I, L, O and U. */
  function Position(d: nat): int {
    if d < 10 then 48 + d else if d < 18 then 55 + d else if d < 20 then 56 + d else if d < 22 then 57 + d
        else if d < 27 then 58 + d else 59 + d
  }

  lemma LetterAt(d: nat)
    requires d < 32
    ensures Letter(d) as int == Position(d)
  {
  }

  lemma LettersAscend(i: nat, j: nat)
    requires i < j < 32
    ensures '0' <= Letter(i) < Letter(j) <= 'Z'
  {
    LetterAt(i);
    LetterAt(j);
  }

  // ----- What an identifier stands for -----

  /** The low 48 bits of the clock's 64, then the random bytes. */
  function Bin(unixMilli: int, random: seq<nat>): (bin: seq<nat>)
    requires |random| == 10 && Digits(256, random)
    ensures |bin| == 16 && Digits(256, bin)
  {
    DigitsOf(256, unixMilli % 0x1_0000_0000_0000_0000, CLOCK) + random
  }

  function Encode(bin: seq<nat>): (id: string)
    ensures |id| == WIDTH
  {
    Spelled(Letter, DigitsOf(32, Num(256, bin), WIDTH))
  }

  predicate InAlphabet(s: string) {
    forall c | c in s :: c in ALPHABET
  }

  function Values(s: string): (ds: seq<nat>)
    requires InAlphabet(s)
    ensures |ds| == |s| && Digits(32, ds)
  {
    seq(|s|, k requires 0 <= k < |s| => IndexOf(ALPHABET, s[k]))
  }

  /** A reader: 26 letters that spell a number of at most 128 bits. */
  function Decode(s: string): Option<seq<nat>> {
    if |s| != WIDTH || !InAlphabet(s) || Num(32, Values(s)) >= Pow(256, BYTES) then None
    else Some(DigitsOf(256, Num(32, Values(s)), BYTES))
  }

  // ----- The packing loop -----

  function Or(a: nat, b: nat): nat
    decreases a
  {
    if a == 0 then b else if b == 0 then a
    else 2 * Or(a / 2, b / 2) + if a % 2 == 1 || b % 2 == 1 then 1 else 0
  }

  /** A left shift in 64 bits. */
  function Shl(x: nat, n: nat): nat {
    x * Pow(2, n) % 0x1_0000_0000_0000_0000
  }

  lemma {:induction false} OrDisjoint(a: nat, b: nat, n: nat)
    requires a < Pow(2, n)
    ensures Or(a, b * Pow(2, n)) == a + b * Pow(2, n)
  {
    if n > 0 && a > 0 && b > 0 {
      var p := Pow(2, n - 1);
      assert b * Pow(2, n) == 2 * (b * p);
      OrDisjoint(a / 2, b, n - 1);
      assert b * p > 0;
    }
  }

  lemma PowerShift(n: nat)
    ensures Pow(2, n + 5) == 32 * Pow(2, n) && Pow(2, n + 8) == 256 * Pow(2, n)
  {
    assert Pow(2, n + 1) == 2 * Pow(2, n) && Pow(2, n + 2) == 2 * Pow(2, n + 1) && Pow(2, n + 3) == 2 * Pow(2, n + 2);
    assert Pow(2, n + 4) == 2 * Pow(2, n + 3) && Pow(2, n + 5) == 2 * Pow(2, n + 4)
        && Pow(2, n + 6) == 2 * Pow(2, n + 5);
    assert Pow(2, n + 7) == 2 * Pow(2, n + 6);
  }

  lemma SmallPower(n: nat)
    requires n < 5
    ensures Pow(2, n) <= 16
  {
    assert Pow(2, 0) == 1 && Pow(2, 1) == 2 && Pow(2, 2) == 4 && Pow(2, 3) == 8 && Pow(2, 4) == 16;
  }

  /** Bytes of `bin` from `i` on are in the digits written so far and in the accumulator. */
  ghost predicate Packed(bin: seq<nat>, i: nat, ds: seq<nat>, acc: nat, bits: nat) {
    && i <= |bin| && Digits(256, bin) && Digits(32, ds)
    && Num(256, bin[i..]) == Num(32, [acc] + ds)
    && 8 * (|bin| - i) == bits + 5 * |ds|
    && acc < Pow(2, bits)
  }

  /** The new byte goes in above the bits still waiting, and nothing overflows. */
  lemma OrByte(acc: nat, b: nat, bits: nat)
    requires acc < Pow(2, bits) && b < 256 && bits < 5
    ensures Or(acc, Shl(b, bits)) == b * Pow(2, bits) + acc < Pow(2, bits + 8)
    ensures Or(acc, Shl(b, bits)) < 0x1000
  {
    SmallPower(bits);
    PowerShift(bits);
    Room(256, b, Pow(2, bits), acc);
    assert Shl(b, bits) == b * Pow(2, bits);
    OrDisjoint(acc, b, bits);
  }

  lemma TakeByte(bin: seq<nat>, i: nat, ds: seq<nat>, acc: nat, bits: nat)
    requires 0 < i && Packed(bin, i, ds, acc, bits) && bits < 5
    ensures Packed(bin, i - 1, ds, Or(acc, Shl(bin[i - 1], bits)), bits + 8)
    ensures Or(acc, Shl(bin[i - 1], bits)) < 0x1000
  {
    var b := bin[i - 1];
    assert b in bin;
    OrByte(acc, b, bits);
    assert bin[i - 1..] == [b] + bin[i..];
    NumCons(256, b, bin[i..]);
    ByteOnTop(b, acc, bits, ds, |bin| - i);
  }

  /** Where the byte's weight comes from. */
  lemma ByteOnTop(b: nat, acc: nat, bits: nat, ds: seq<nat>, bytes: nat)
    requires 8 * bytes == bits + 5 * |ds|
    ensures b * Pow(256, bytes) + Num(32, [acc] + ds) == Num(32, [b * Pow(2, bits) + acc] + ds)
  {
    var p, q, w, n := Pow(2, bits), Pow(32, |ds|), Pow(256, bytes), Num(32, ds);
    SameWeight(bytes, |ds|, bits);
    Combine(b, p, acc, q, w, n);
    calc {
      b * w + Num(32, [acc] + ds);
      { NumCons(32, acc, ds); }
      b * w + (acc * q + n);
      (b * p + acc) * q + n;
      { NumCons(32, b * p + acc, ds); }
      Num(32, [b * p + acc] + ds);
    }
  }

  lemma Combine(b: nat, p: nat, acc: nat, q: nat, w: nat, n: nat)
    requires w == p * q
    ensures b * w + (acc * q + n) == (b * p + acc) * q + n
  {
    Distribute(b, p, acc, q);
  }

  /** As many bits in as out. */
  lemma SameWeight(bytes: nat, digits: nat, bits: nat)
    requires 8 * bytes == bits + 5 * digits
    ensures Pow(256, bytes) == Pow(2, bits) * Pow(32, digits)
  {
    PowerShift(0);
    PowPow(2, 8, bytes);
    PowPow(2, 5, digits);
    PowAdd(2, bits, 5 * digits);
  }

  lemma PutDigit(bin: seq<nat>, i: nat, ds: seq<nat>, acc: nat, bits: nat)
    requires Packed(bin, i, ds, acc, bits) && bits >= 5
    ensures Packed(bin, i, [acc % 32] + ds, acc / 32, bits - 5)
  {
    PowerShift(bits - 5);
    TopDigit(ds, acc);
  }

  lemma TopDigit(ds: seq<nat>, acc: nat)
    ensures Num(32, [acc / 32] + ([acc % 32] + ds)) == Num(32, [acc] + ds)
  {
    NumCons(32, acc, ds);
    NumCons(32, acc % 32, ds);
    NumCons(32, acc / 32, [acc % 32] + ds);
    Distribute(acc / 32, 32, acc % 32, Pow(32, |ds|));
  }

  /** Shifting right by whole bytes. */
  function ByteAt(x: nat, k: nat): (b: nat)
    ensures b < 256
  {
    x / Pow(256, k) % 256
  }

  lemma {:induction false} BytesOf(x: nat, n: nat, k: nat)
    requires k < n
    ensures DigitsOf(256, x, n)[k] == ByteAt(x, n - 1 - k)
    decreases n
  {
    if k < n - 1 {
      BytesOf(x / 256, n - 1, k);
      NestedDivision(x, Pow(256, n - 2 - k));
    }
  }

  lemma NestedDivision(x: nat, b: nat)
    requires b > 0
    ensures x / 256 / b == x / (256 * b)
  {
    var y, s := x / 256, x % 256;
    var q, r := y / b, y % b;
    assert y == q * b + r;
    assert q * (256 * b) + (256 * r + s) == x;
    DivMod(256 * b, q, 256 * r + s);
  }

  method NewULID(unixMilli: int, random: seq<nat>) returns (id: string)
    requires |random| == 10 && Digits(256, random)
    ensures id == Encode(Bin(unixMilli, random))
  {
    var bytes := new nat[16];
    FillBin(bytes, unixMilli % 0x1_0000_0000_0000_0000, random);
    var out := new char[26];
    var acc, bits, pos, ds := PackBytes(bytes[..], out);
    AllPacked(bytes[..], ds, acc, bits);
    PackRest(out, acc, pos, ds);
    ds := [acc] + ds;
    NumThere(32, ds);
    id := out[..];
  }

  /** The bytes from the last to the first, five bits at a time. */
  method PackBytes(bin: seq<nat>, out: array<char>) returns (acc: nat, bits: nat, pos: int, ghost ds: seq<nat>)
    requires |bin| == 16 && Digits(256, bin) && out.Length == 26
    modifies out
    ensures bits < 5 && pos == 25 - |ds| && Packed(bin, 0, ds, acc, bits)
    ensures out[pos + 1..] == Spelled(Letter, ds)
  {
    acc, bits, pos, ds := 0, 0, 25, [];
    NothingPacked(bin);
    var i := 16;
    while i > 0
      invariant 0 <= i <= 16 && bits < 5
      invariant pos == 25 - |ds| && Packed(bin, i, ds, acc, bits)
      invariant out[pos + 1..] == Spelled(Letter, ds)
      decreases i
    {
      i := i - 1;
      TakeByte(bin, i + 1, ds, acc, bits);
      acc, bits := Or(acc, Shl(bin[i], bits)), bits + 8;
      acc, bits, pos, ds := Drain(bin, i, out, acc, bits, pos, ds);
    }
  }

  /** The inner loop: five bits become a letter while there are five. */
  method Drain(ghost bin: seq<nat>, ghost i: nat, out: array<char>, acc0: nat, bits0: nat, pos0: int,
      ghost ds0: seq<nat>)
    returns (acc: nat, bits: nat, pos: int, ghost ds: seq<nat>)
    requires |bin| == 16 && out.Length == 26 && acc0 < 0x1000 && pos0 == 25 - |ds0|
    requires Packed(bin, i, ds0, acc0, bits0) && out[pos0 + 1..] == Spelled(Letter, ds0)
    modifies out
    ensures bits < 5 && acc < 0x1000 && pos == 25 - |ds|
    ensures Packed(bin, i, ds, acc, bits) && out[pos + 1..] == Spelled(Letter, ds)
  {
    acc, bits, pos, ds := acc0, bits0, pos0, ds0;
    while bits >= 5 && pos >= 0
      invariant acc < 0x1000 && pos == 25 - |ds|
      invariant Packed(bin, i, ds, acc, bits) && out[pos + 1..] == Spelled(Letter, ds)
      decreases bits
    {
      PutDigit(bin, i, ds, acc, bits);
      WriteDigit(out, pos, acc, ds);
      acc, bits, pos, ds := acc / 32, bits - 5, pos - 1, [acc % 32] + ds;
    }
    NoBitsLeft(bin, i, ds, acc, bits);
  }

  lemma NoBitsLeft(bin: seq<nat>, i: nat, ds: seq<nat>, acc: nat, bits: nat)
    requires |bin| == 16 && Packed(bin, i, ds, acc, bits) && |ds| <= 26 && (bits < 5 || |ds| == 26)
    ensures bits < 5
  {
    BitsLeft(|bin| - i, |ds|, bits);
  }

  lemma BitsLeft(bytes: nat, digits: nat, bits: nat)
    requires bytes <= 16 && 8 * bytes == bits + 5 * digits && digits <= 26 && (bits < 5 || digits == 26)
    ensures bits < 5
  {
  }

  /** The padding loop: what is left in the accumulator fills the string. */
  method PackRest(out: array<char>, acc: nat, pos: nat, ghost ds: seq<nat>)
    requires out.Length == 26 && pos == 0 && acc < 32 && |ds| == 25
    requires out[pos + 1..] == Spelled(Letter, ds)
    modifies out
    ensures out[..] == Spelled(Letter, [acc] + ds)
  {
    var a, p := acc, pos as int;
    while p >= 0
      invariant -1 <= p <= 0 && (p == 0 ==> a == acc)
      invariant if p == 0 then out[1..] == Spelled(Letter, ds) else out[..] == Spelled(Letter, [acc] + ds)
      decreases p
    {
      assert p == 0 && a % 32 == acc;
      WriteDigit(out, p, a, ds);
      assert out[0..] == out[..];
      a, p := a / 32, p - 1;
    }
  }

  method WriteDigit(out: array<char>, pos: nat, acc: nat, ghost ds: seq<nat>)
    requires pos < out.Length && out[pos + 1..] == Spelled(Letter, ds)
    modifies out
    ensures out[pos..] == Spelled(Letter, [acc % 32] + ds)
  {
    out[pos] := ALPHABET[acc % 32];
    assert out[pos..] == [out[pos]] + out[pos + 1..];
  }

  lemma NothingPacked(bin: seq<nat>)
    requires Digits(256, bin)
    ensures Packed(bin, |bin|, [], 0, 0)
  {
    assert bin[|bin|..] == [] && Pow(2, 0) == 1;
    One(32, 0);
    assert [0] + [] == [0];
  }

  /** After the last byte one digit is left, of three bits. */
  lemma AllPacked(bin: seq<nat>, ds: seq<nat>, acc: nat, bits: nat)
    requires |bin| == 16 && Packed(bin, 0, ds, acc, bits) && bits < 5
    ensures |ds| == 25 && acc < 8 && Num(256, bin) == Num(32, [acc] + ds)
  {
    assert bin[0..] == bin;
    assert Pow(2, 0) == 1 && Pow(2, 1) == 2 && Pow(2, 2) == 4 && Pow(2, 3) == 8;
  }

  method FillBin(bin: array<nat>, ms: nat, random: seq<nat>)
    requires bin.Length == 16 && |random| == 10 && ms < 0x1_0000_0000_0000_0000
    modifies bin
    ensures bin[..] == DigitsOf(256, ms, 6) + random
  {
    bin[0] := ms / 0x100_0000_0000 % 256;
    bin[1] := ms / 0x1_0000_0000 % 256;
    bin[2] := ms / 0x100_0000 % 256;
    bin[3] := ms / 0x1_0000 % 256;
    bin[4] := ms / 0x100 % 256;
    bin[5] := ms % 256;
    forall k | 6 <= k < 16 {
      bin[k] := random[k - 6];
    }
    SixBytes(ms);
    assert bin[..6] == DigitsOf(256, ms, 6);
    assert bin[6..] == random;
    assert bin[..] == bin[..6] + bin[6..];
  }

  lemma SixBytes(ms: nat)
    ensures DigitsOf(256, ms, 6)
         == [ms / 0x100_0000_0000 % 256, ms / 0x1_0000_0000 % 256, ms / 0x100_0000 % 256, ms / 0x1_0000 % 256,
             ms / 0x100 % 256, ms % 256]
  {
    assert Pow(256, 0) == 1 && Pow(256, 1) == 0x100 && Pow(256, 2) == 0x1_0000 && Pow(256, 3) == 0x100_0000;
    assert Pow(256, 4) == 0x1_0000_0000 && Pow(256, 5) == 0x100_0000_0000;
    BytesOf(ms, 6, 0);
    BytesOf(ms, 6, 1);
    BytesOf(ms, 6, 2);
    BytesOf(ms, 6, 3);
    BytesOf(ms, 6, 4);
    BytesOf(ms, 6, 5);
  }

  // ----- What identifiers promise -----

  lemma LetterBack(d: nat)
    requires d < 32
    ensures Letter(d) in ALPHABET && IndexOf(ALPHABET, Letter(d)) == d
  {
    Letters();
    var i := IndexOf(ALPHABET, Letter(d));
    assert Letter(i) == Letter(d);
  }

  lemma ValuesBack(ds: seq<nat>)
    requires Digits(32, ds)
    ensures InAlphabet(Spelled(Letter, ds)) && Values(Spelled(Letter, ds)) == ds
  {
    var s := Spelled(Letter, ds);
    forall k | 0 <= k < |ds| ensures s[k] in ALPHABET && IndexOf(ALPHABET, s[k]) == ds[k] {
      assert ds[k] in ds;
      LetterBack(ds[k]);
    }
  }

  /** Sixteen bytes in twenty-six digits: two bits to spare. */
  lemma Fits(bin: seq<nat>)
    requires |bin| == 16 && Digits(256, bin)
    ensures Num(256, bin) < Pow(256, BYTES) == 8 * Pow(32, WIDTH - 1) < Pow(32, WIDTH)
    ensures Num(32, DigitsOf(32, Num(256, bin), WIDTH)) == Num(256, bin)
  {
    NumBound(256, bin);
    SameWeight(BYTES, WIDTH - 1, 3);
    assert Pow(2, 0) == 1 && Pow(2, 1) == 2 && Pow(2, 2) == 4 && Pow(2, 3) == 8;
    NumBack(32, Num(256, bin), WIDTH);
  }

  lemma DecodeSpelled(ds: seq<nat>)
    requires |ds| == WIDTH && Digits(32, ds) && Num(32, ds) < Pow(256, BYTES)
    ensures Decode(Spelled(Letter, ds)) == Some(DigitsOf(256, Num(32, ds), BYTES))
  {
    ValuesBack(ds);
  }

  lemma SameNumber(bin: seq<nat>)
    requires |bin| == 16 && Digits(256, bin)
    ensures Num(32, DigitsOf(32, Num(256, bin), WIDTH)) == Num(256, bin) < Pow(256, BYTES)
  {
    Fits(bin);
  }

  /** Reading an identifier gives back its sixteen bytes. */
  lemma DecodeEncode(bin: seq<nat>)
    requires |bin| == 16 && Digits(256, bin)
    ensures Decode(Encode(bin)) == Some(bin)
  {
    SameNumber(bin);
    DecodeSpelled(DigitsOf(32, Num(256, bin), WIDTH));
    NumThere(256, bin);
  }

  /** Every string the reader takes is the identifier of what it reads. */
  lemma EncodeDecode(s: string)
    requires Decode(s).Some?
    ensures |Decode(s).value| == 16 && Encode(Decode(s).value) == s
  {
    NumBack(256, Num(32, Values(s)), BYTES);
    NumThere(32, Values(s));
    SpelledBack(s);
  }

  lemma SpelledBack(s: string)
    requires InAlphabet(s)
    ensures Spelled(Letter, Values(s)) == s
  {
    forall k | 0 <= k < |s| ensures Letter(Values(s)[k]) == s[k] {
      assert s[k] in ALPHABET;
    }
  }

  lemma SmallLead(ds: seq<nat>)
    requires ds != [] && Num(32, ds) < 8 * Pow(32, |ds| - 1)
    ensures ds[0] < 8
  {
    if ds[0] >= 8 {
      Grows(8, ds[0], Pow(32, |ds| - 1));
    }
  }

  /** Two padding bits: no identifier starts above '7'. */
  lemma FirstLetter(bin: seq<nat>)
    requires |bin| == 16 && Digits(256, bin)
    ensures '0' <= Encode(bin)[0] <= '7'
  {
    LeadOf(bin);
    var d := DigitsOf(32, Num(256, bin), WIDTH)[0];
    LetterAt(d);
  }

  lemma LeadOf(bin: seq<nat>)
    requires |bin| == 16 && Digits(256, bin)
    ensures DigitsOf(32, Num(256, bin), WIDTH)[0] < 8
  {
    Fits(bin);
    SmallLead(DigitsOf(32, Num(256, bin), WIDTH));
  }

  function LowLetter(d: nat): char {
    LowerChar(Letter(d))
  }

  lemma LowEncode(bin: seq<nat>)
    ensures Lower(Encode(bin)) == Spelled(LowLetter, DigitsOf(32, Num(256, bin), WIDTH))
  {
  }

  /** Identifiers sort as the numbers they stand for, in either case. */
  lemma SortsAsNumbers(a: seq<nat>, b: seq<nat>)
    requires |a| == |b| == 16 && Digits(256, a) && Digits(256, b)
    ensures Before(Encode(a), Encode(b)) <==> Num(256, a) < Num(256, b)
    ensures Before(Lower(Encode(a)), Lower(Encode(b))) <==> Num(256, a) < Num(256, b)
  {
    LowEncode(a);
    LowEncode(b);
    Letters();
    LowLetters();
    SpellsSort(Letter, a, b);
    SpellsSort(LowLetter, a, b);
  }

  lemma SpellsSort(alphabet: nat -> char, a: seq<nat>, b: seq<nat>)
    requires Ascending(alphabet, 32) && |a| == |b| == 16 && Digits(256, a) && Digits(256, b)
    ensures Before(Spelled(alphabet, DigitsOf(32, Num(256, a), WIDTH)),
            Spelled(alphabet, DigitsOf(32, Num(256, b), WIDTH)))
        <==> Num(256, a) < Num(256, b)
  {
    Fits(a);
    Fits(b);
    SpelledSorts(alphabet, 32, DigitsOf(32, Num(256, a), WIDTH), DigitsOf(32, Num(256, b), WIDTH));
  }

  lemma LowLetters()
    ensures Ascending(LowLetter, 32)
  {
    forall i, j | 0 <= i < j < 32 ensures LowLetter(i) < LowLetter(j) {
      LettersAscend(i, j);
      LetterAt(i);
      LetterAt(j);
    }
  }

  /** The milliseconds are the high part of the number. */
  lemma TimeFirst(ms: nat, random: seq<nat>)
    requires ms < 0x1_0000_0000_0000 && |random| == 10 && Digits(256, random)
    ensures Num(256, Bin(ms, random)) == ms * Pow(256, |random|) + Num(256, random)
  {
    SixBytesHold(ms);
    HighPart(DigitsOf(256, ms, CLOCK), ms, random);
    assert ms % 0x1_0000_0000_0000_0000 == ms;
  }

  lemma HighPart(head: seq<nat>, ms: nat, random: seq<nat>)
    requires Num(256, head) == ms
    ensures Num(256, head + random) == ms * Pow(256, |random|) + Num(256, random)
  {
    NumAppend(256, head, random);
  }

  lemma SixBytesHold(ms: nat)
    requires ms < 0x1_0000_0000_0000
    ensures Num(256, DigitsOf(256, ms, CLOCK)) == ms
  {
    assert Pow(256, 0) == 1 && Pow(256, 1) == 0x100 && Pow(256, 2) == 0x1_0000 && Pow(256, 3) == 0x100_0000;
    assert Pow(256, 4) == 0x1_0000_0000 && Pow(256, 5) == 0x100_0000_0000 && Pow(256, 6) == 0x1_0000_0000_0000;
    NumBack(256, ms, CLOCK);
  }

  /** An earlier millisecond sorts first, whatever the random bytes, in either case. */
  lemma SortsByTime(ms: nat, ms': nat, random: seq<nat>, random': seq<nat>)
    requires ms < ms' < 0x1_0000_0000_0000
    requires |random| == |random'| == 10 && Digits(256, random) && Digits(256, random')
    ensures Before(Encode(Bin(ms, random)), Encode(Bin(ms', random')))
    ensures Before(Lower(Encode(Bin(ms, random))), Lower(Encode(Bin(ms', random'))))
  {
    SortsAsNumbers(Bin(ms, random), Bin(ms', random'));
    TimeFirst(ms, random);
    TimeFirst(ms', random');
    NumBound(256, random);
    Room(ms', ms, Pow(256, |random|), Num(256, random));
  }

  /** Different bytes, different identifiers, in either case. */
  lemma Distinct(a: seq<nat>, b: seq<nat>)
    requires |a| == |b| == 16 && Digits(256, a) && Digits(256, b) && a != b
    ensures Lower(Encode(a)) != Lower(Encode(b)) && Encode(a) != Encode(b)
  {
    if Num(256, a) == Num(256, b) {
      NumThere(256, a);
      NumThere(256, b);
    }
    SortsAsNumbers(a, b);
    SortsAsNumbers(b, a);
    BeforeIrreflexive(Lower(Encode(a)));
    BeforeIrreflexive(Encode(a));
  }

  /** Reading an identifier tells the milliseconds, modulo 2^48, and the random bytes; so two
      are equal exactly when both agree. */
  lemma IdTells(unixMilli: int, random: seq<nat>)
    requires |random| == 10 && Digits(256, random)
    ensures var bin := Decode(Encode(Bin(unixMilli, random)));
            && bin.Some? && |bin.value| == 16
            && Num(256, bin.value[..6]) == unixMilli % 0x1_0000_0000_0000
            && bin.value[6..] == random
  {
    DecodeEncode(Bin(unixMilli, random));
    BinParts(unixMilli, random);
    SixBytesWrap(unixMilli % 0x1_0000_0000_0000_0000);
    ModMod(unixMilli);
  }

  lemma BinParts(unixMilli: int, random: seq<nat>)
    requires |random| == 10 && Digits(256, random)
    ensures var bin := Bin(unixMilli, random);
            bin[..6] == DigitsOf(256, unixMilli % 0x1_0000_0000_0000_0000, CLOCK) && bin[6..] == random
  {
  }

  lemma ModMod(x: int)
    ensures x % 0x1_0000_0000_0000_0000 % 0x1_0000_0000_0000 == x % 0x1_0000_0000_0000
  {
    var m := x % 0x1_0000_0000_0000_0000;
    var k, j := x / 0x1_0000_0000_0000_0000, m / 0x1_0000_0000_0000;
    assert x == 0x1_0000_0000_0000 * (0x1_0000 * k + j) + m % 0x1_0000_0000_0000;
  }

  lemma SixBytesWrap(ms: nat)
    ensures Num(256, DigitsOf(256, ms, CLOCK)) == ms % 0x1_0000_0000_0000
  {
    var low: nat := ms % 0x1_0000_0000_0000;
    HighBytesStay(ms, low);
    LowBytesStay(ms, low);
    SixBytes(ms);
    SixBytes(low);
    SixBytesHold(low);
  }

  lemma HighBytesStay(ms: nat, low: nat)
    requires low == ms % 0x1_0000_0000_0000
    ensures low / 0x100_0000_0000 % 256 == ms / 0x100_0000_0000 % 256
    ensures low / 0x1_0000_0000 % 256 == ms / 0x1_0000_0000 % 256
    ensures low / 0x100_0000 % 256 == ms / 0x100_0000 % 256
  {
    var q := ms / 0x1_0000_0000_0000;
    assert ms / 0x100_0000_0000 == 0x100 * q + low / 0x100_0000_0000;
    assert ms / 0x1_0000_0000 == 0x1_0000 * q + low / 0x1_0000_0000;
    assert ms / 0x100_0000 == 0x100_0000 * q + low / 0x100_0000;
  }

  lemma LowBytesStay(ms: nat, low: nat)
    requires low == ms % 0x1_0000_0000_0000
    ensures low / 0x1_0000 % 256 == ms / 0x1_0000 % 256
    ensures low / 0x100 % 256 == ms / 0x100 % 256
    ensures low % 256 == ms % 256
  {
    var q := ms / 0x1_0000_0000_0000;
    assert ms / 0x1_0000 == 0x1_0000_0000 * q + low / 0x1_0000;
    assert ms / 0x100 == 0x100_0000_0000 * q + low / 0x100;
    assert ms == 0x1_0000_0000_0000 * q + low;
  }
}
