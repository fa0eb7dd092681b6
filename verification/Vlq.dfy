/** Base64 VLQ numbers, with the 32-bit shifts the program computes them by. */
module Vlq {
  import opened Bytes

  const SEMICOLON: byte := 59
  const COMMA: byte := 44
  const NEWLINE: byte := 10

  /** The two's complement value of the low 32 bits. */
  function ToInt32(x: int): int {
    var low := x % 0x1_0000_0000;
    if low < 0x8000_0000 then low else low - 0x1_0000_0000
  }

  function Pow2(n: nat): nat
  {
    if n == 0 then 1 else 2 * Pow2(n - 1)
  }

  /** `x << n`: the shift distance counts modulo 32. */
  function ShiftLeft(x: int, n: nat): int {
    ToInt32(x * Pow2(n % 32))
  }

  /** The one 32-bit value that differs by whole turns. */
  lemma Int32IsCongruent(x: int)
    ensures -0x8000_0000 <= ToInt32(x) < 0x8000_0000 && (ToInt32(x) - x) % 0x1_0000_0000 == 0
  {
  }

  /** 32 bits on, a shift starts again. */
  lemma ShiftStartsAgain(x: int, n: nat)
    ensures ShiftLeft(x, n + 32) == ShiftLeft(x, n)
  {
    hide ToInt32, Pow2;
    assert (n + 32) % 32 == n % 32;
  }

  function IntegerToChar(i: int): byte
    requires 0 <= i < 64
  {
    if i < 26 then 65 + i
    else if i < 52 then 97 + (i - 26)
    else if i < 62 then 48 + (i - 52)
    else if i == 62 then 43
    else 47
  }

  /** The table also knows `=`, as 64; every other byte that is no digit is 255. */
  function CharToInteger(b: byte): byte {
    if 65 <= b <= 90 then b - 65
    else if 97 <= b <= 122 then b - 97 + 26
    else if 48 <= b <= 57 then b - 48 + 52
    else if b == 43 then 62
    else if b == 47 then 63
    else if b == 61 then 64
    else 255
  }

  lemma DigitRoundTrip(i: int)
    requires 0 <= i < 64
    ensures CharToInteger(IntegerToChar(i)) == i
    ensures IntegerToChar(i) != SEMICOLON && IntegerToChar(i) != COMMA
  {
  }

  /** The digits of base 64, as RFC 4648 lists them, and what stands between numbers. */
  const ALPHABET := "ABCDEFGHIJKLMNOPQRSTUVWXYZ" + "abcdefghijklmnopqrstuvwxyz" + "0123456789+/"

  lemma DigitIsWritten(i: int)
    requires 0 <= i < 64
    ensures |ALPHABET| == 64 && IntegerToChar(i) == ALPHABET[i] as int
    ensures SEMICOLON == ';' as int && COMMA == ',' as int && NEWLINE == '\n' as int
  {
  }

  /** The table reads what the alphabet lists, `=` as 64, and nothing else. */
  lemma DigitIsRead(b: byte)
    ensures CharToInteger(b) < 64 || CharToInteger(b) == 64 || CharToInteger(b) == 255
    ensures CharToInteger(b) < 64 ==> ALPHABET[CharToInteger(b)] as int == b
    ensures CharToInteger(b) == 64 <==> b == '=' as int
    ensures CharToInteger(b) == 255 <==> b != '=' as int && b as char !in ALPHABET
  {
    if CharToInteger(b) < 64 { DigitIsWritten(CharToInteger(b)); }
    forall i | 0 <= i < 64 ensures ALPHABET[i] as int == IntegerToChar(i) && CharToInteger(IntegerToChar(i)) == i {
      DigitIsWritten(i);
      DigitRoundTrip(i);
    }
  }

  // ---------- encoding ----------

  /** Five bits a digit, the lowest first; all digits but the last say that another one follows. */
  function Digits(num: int): seq<byte>
    decreases if num < 0 then 0 else num
  {
    if num / 32 > 0
    then [IntegerToChar(num % 32 + 32)] + Digits(num / 32)
    else [IntegerToChar(num % 32)]
  }

  /** Sign in the low bit, magnitude above it, in 32 bits. */
  function SignedToVlq(num: int): int {
    if num < 0 then ToInt32(-num * 2) + 1 else ToInt32(num * 2)
  }

  function VlqBytes(num: int): seq<byte> {
    Digits(SignedToVlq(num))
  }

  // ---------- decoding ----------

  /** `value & 1` is the sign and `value >> 1` the magnitude, both on 32 bits. */
  function VlqToSigned(value: int): int {
    var low := ToInt32(value);
    if low % 2 == 1 then -(low / 2) else low / 2
  }

  /** A number of which digits are still to come, or a whole one. */
  datatype Progress = More(value: int, shift: nat) | Number(number: int)

  /** One digit: five bits, shifted on 32 bits; the number is whole when no continuation bit says otherwise. */
  function TakeDigit(value: int, shift: nat, digit: int): Progress {
    var sum := value + ShiftLeft(digit % 32, shift);
    if digit / 32 % 2 == 1 then More(sum, shift + 5) else Number(VlqToSigned(sum))
  }

  /** The next number, and what stands behind it. */
  function ReadNumber(bytes: seq<byte>, value: int, shift: nat): (int, seq<byte>)
    decreases |bytes|
  {
    if bytes == [] || CharToInteger(bytes[0]) == 255 then (VlqToSigned(value), bytes)
    else
      match TakeDigit(value, shift, CharToInteger(bytes[0]))
      case More(sum, next) => ReadNumber(bytes[1..], sum, next)
      case Number(number) => (number, bytes[1..])
  }

  function ReadNumbers(bytes: seq<byte>, n: nat): (seq<int>, seq<byte>)
    decreases n
  {
    if n == 0 then ([], bytes)
    else
      var (number, rest) := ReadNumber(bytes, 0, 0);
      var (numbers, end) := ReadNumbers(rest, n - 1);
      ([number] + numbers, end)
  }

  function AllVlqBytes(nums: seq<int>): seq<byte> {
    if nums == [] then [] else VlqBytes(nums[0]) + AllVlqBytes(nums[1..])
  }

  lemma Pow2Grows(m: nat, n: nat)
    requires m <= n
    ensures 1 <= Pow2(m) <= Pow2(n)
    decreases n
  {
  }

  lemma Pow2Five(n: nat)
    ensures Pow2(n + 5) == 32 * Pow2(n)
  {
    assert Pow2(n + 5) == 2 * Pow2(n + 4) == 4 * Pow2(n + 3) == 8 * Pow2(n + 2);
    assert Pow2(n + 2) == 2 * Pow2(n + 1) == 4 * Pow2(n);
  }

  lemma Pow2Is31()
    ensures Pow2(31) == 0x8000_0000
  {
    assert Pow2(0) == 1;
    Pow2Five(0);
    Pow2Five(5);
    Pow2Five(10);
    Pow2Five(15);
    Pow2Five(20);
    Pow2Five(25);
    assert Pow2(31) == 2 * Pow2(30);
  }

  lemma ToInt32Small(x: int)
    requires 0 <= x < 0x8000_0000
    ensures ToInt32(x) == x
  {
  }

  lemma ShiftIsSmall(digit: nat, shift: nat)
    requires digit * Pow2(shift) < 0x8000_0000 && digit > 0
    ensures shift < 31
  {
    if shift >= 31 {
      Pow2Is31();
      Pow2Grows(31, shift);
      Widen(digit, Pow2(shift));
    }
  }

  lemma Widen(digit: nat, scale: nat)
    requires digit > 0
    ensures digit * scale >= scale >= 0
  {
  }

  lemma ShiftIsProduct(digit: nat, shift: nat)
    requires shift < 31
    ensures ShiftLeft(digit, shift) == ToInt32(digit * Pow2(shift))
  {
    hide ToInt32, Pow2;
    assert shift % 32 == shift;
  }

  /** As long as the number stays below 2^31, shifting a digit loses nothing. */
  lemma ShiftIsExact(digit: nat, shift: nat)
    requires digit * Pow2(shift) < 0x8000_0000
    ensures ShiftLeft(digit, shift) == digit * Pow2(shift)
  {
    hide ToInt32, Pow2;
    if digit == 0 {
      assert ToInt32(0) == 0 by { ToInt32Small(0); }
      Zero(Pow2(shift));
      Zero(Pow2(shift % 32));
    } else {
      hide ShiftLeft;
      ShiftIsSmall(digit, shift);
      ShiftIsProduct(digit, shift);
      Widen(digit, Pow2(shift));
      ToInt32Small(digit * Pow2(shift));
    }
  }

  lemma Zero(scale: int)
    ensures 0 * scale == 0
  {
  }

  lemma DigitTaken(digit: nat, value: int, shift: nat)
    requires digit < 32 && digit * Pow2(shift) < 0x8000_0000
    ensures TakeDigit(value, shift, digit + 32) == More(value + digit * Pow2(shift), shift + 5)
    ensures TakeDigit(value, shift, digit) == Number(VlqToSigned(value + digit * Pow2(shift)))
  {
    hide ToInt32, Pow2, ShiftLeft, VlqToSigned;
    ShiftIsExact(digit, shift);
    assert (digit + 32) % 32 == digit && (digit + 32) / 32 % 2 == 1;
  }

  lemma {:induction false} DigitsRead(num: nat, rest: seq<byte>, value: nat, shift: nat)
    requires value + num * Pow2(shift) < 0x8000_0000
    ensures ReadNumber(Digits(num) + rest, value, shift) == (VlqToSigned(value + num * Pow2(shift)), rest)
    decreases num
  {
    hide TakeDigit, ToInt32, ShiftLeft, VlqToSigned, CharToInteger, IntegerToChar, Pow2;
    var scale := Pow2(shift);
    DigitRoundTrip(num % 32);
    DigitRoundTrip(num % 32 + 32);
    SplitDigit(num, scale);
    DigitTaken(num % 32, value, shift);
    Pow2Five(shift);
    var bytes := Digits(num) + rest;
    var low, high := num % 32 * scale, num / 32 * (32 * scale);
    assert low + high == num * scale;
    if num / 32 > 0 {
      assert bytes[0] == IntegerToChar(num % 32 + 32) && bytes[1..] == Digits(num / 32) + rest;
      DigitsRead(num / 32, rest, value + low, shift + 5);
      assert value + low + num / 32 * Pow2(shift + 5) == value + num * scale;
    } else {
      OnlyDigit(num, scale);
      assert bytes[0] == IntegerToChar(num % 32) && bytes[1..] == rest;
    }
  }

  lemma OnlyDigit(num: nat, scale: nat)
    requires num / 32 == 0
    ensures num % 32 == num && num / 32 * (32 * scale) == 0
  {
  }

  lemma SplitDigit(num: nat, scale: nat)
    ensures num % 32 * scale + num / 32 * (32 * scale) == num * scale
    ensures 0 <= num % 32 * scale <= num * scale
  {
  }

  lemma SignedFits(num: int)
    requires -0x4000_0000 < num < 0x4000_0000
    ensures 0 <= SignedToVlq(num) < 0x8000_0000 && VlqToSigned(SignedToVlq(num)) == num
  {
  }

  lemma SignedTooLarge(num: int)
    requires !(-0x4000_0000 < num < 0x4000_0000)
    ensures SignedToVlq(num) < 0x8000_0000
    ensures SignedToVlq(num) >= 0 ==> VlqToSigned(SignedToVlq(num)) != num
  {
  }

  predicate Fits30(num: int) {
    -0x4000_0000 < num < 0x4000_0000
  }

  /** Encoding and reading back is the identity exactly below 2^30; beyond it the shift loses bits. */
  lemma VlqRoundTrip(num: int, rest: seq<byte>)
    ensures ReadNumber(VlqBytes(num) + rest, 0, 0).0 == num <==> Fits30(num)
    ensures Fits30(num) ==> ReadNumber(VlqBytes(num) + rest, 0, 0).1 == rest
  {
    hide SignedToVlq, VlqToSigned;
    var value := SignedToVlq(num);
    if Fits30(num) { SignedFits(num); } else { SignedTooLarge(num); }
    if value >= 0 {
      assert Pow2(0) == 1;
      DigitsRead(value, rest, 0, 0);
    } else {
      OverflowReads(value, rest);
    }
  }

  /** Numbers need nothing between them: each ends where its own digits say. */
  lemma {:induction false} NumbersRoundTrip(nums: seq<int>, rest: seq<byte>)
    ensures ReadNumbers(AllVlqBytes(nums) + rest, |nums|) == (nums, rest)
            <==> forall i :: 0 <= i < |nums| ==> Fits30(nums[i])
    decreases nums
  {
    hide ReadNumber, VlqBytes;
    if nums == [] {
      assert [] + rest == rest;
    } else {
      var tail := AllVlqBytes(nums[1..]) + rest;
      assert AllVlqBytes(nums) + rest == VlqBytes(nums[0]) + tail;
      VlqRoundTrip(nums[0], tail);
      NumbersRoundTrip(nums[1..], rest);
      assert nums == [nums[0]] + nums[1..];
      if Fits30(nums[0]) {
        assert ReadNumber(VlqBytes(nums[0]) + tail, 0, 0) == (nums[0], tail);
      } else {
        assert ReadNumbers(AllVlqBytes(nums) + rest, |nums|).0[0] != nums[0];
      }
    }
  }

  /** A number that overflowed to a negative one is cut to its lowest digit. */
  lemma OverflowReads(value: int, rest: seq<byte>)
    requires value < 0
    ensures -16 < ReadNumber(Digits(value) + rest, 0, 0).0 < 16
  {
    hide TakeDigit, CharToInteger, IntegerToChar;
    DigitRoundTrip(value % 32);
    assert Digits(value) == [IntegerToChar(value % 32)];
    assert (Digits(value) + rest)[0] == IntegerToChar(value % 32);
    assert Pow2(0) == 1;
    DigitTaken(value % 32, 0, 0);
  }
}
