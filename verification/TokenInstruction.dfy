/** Decoding of SPL Token instruction data, from its base58-decoded bytes. */
module TokenInstruction {
  import opened Wrappers
  import opened Powers

  type Byte = b: int | 0 <= b < 0x100

  const TRANSFER_DISCRIMINATOR: Byte := 3
  const TRANSFER_CHECKED_DISCRIMINATOR: Byte := 12
  const TRANSFER_DATA_LENGTH := 9
  const TRANSFER_CHECKED_DATA_LENGTH := 10

  datatype Decoded =
    | Transfer(amountBaseUnits: nat)
    | TransferChecked(amountBaseUnits: nat, decimals: Byte)
    | Unsupported
    | Malformed

  /** Bitwise or of unbounded integers, as `BigInt` has it. */
  function BitOr(x: nat, y: nat): nat
    decreases x + y
  {
    if x == 0 && y == 0 then 0
    else 2 * BitOr(x / 2, y / 2) + (if x % 2 == 1 || y % 2 == 1 then 1 else 0)
  }

  lemma {:induction false} OrOfZero(x: nat)
    ensures BitOr(x, 0) == x && BitOr(0, x) == x
    decreases x
  {
    if x > 0 { OrOfZero(x / 2); }
  }

  /** Or-ing in bits above all those of `x` adds them. */
  lemma {:induction false} OrAbove(x: nat, y: nat, k: nat)
    requires x < Pow2(k)
    ensures BitOr(x, y * Pow2(k)) == x + y * Pow2(k)
    decreases k
  {
    if k == 0 {
      OrOfZero(y);
    } else {
      var half := y * Pow2(k - 1);
      assert y * Pow2(k) == 2 * half by { assert Pow2(k) == 2 * Pow2(k - 1); }
      OrAbove(x / 2, y, k - 1);
      if x == 0 && half == 0 {
      } else {
        assert (2 * half) / 2 == half && (2 * half) % 2 == 0;
        assert BitOr(x, 2 * half) == 2 * BitOr(x / 2, half) + x % 2;
      }
    }
  }

  /** The number little-endian bytes stand for. */
  function LittleEndian(bytes: seq<Byte>): nat {
    if bytes == [] then 0 else bytes[0] + 0x100 * LittleEndian(bytes[1..])
  }

  function EncodeLittleEndian(amount: nat, length: nat): (bytes: seq<Byte>)
    ensures |bytes| == length
  {
    if length == 0 then [] else [amount % 0x100] + EncodeLittleEndian(amount / 0x100, length - 1)
  }

  lemma {:induction false} EncodeOfLittleEndian(bytes: seq<Byte>)
    ensures EncodeLittleEndian(LittleEndian(bytes), |bytes|) == bytes
  {
    if bytes != [] {
      var b, rest := bytes[0], LittleEndian(bytes[1..]);
      EncodeOfLittleEndian(bytes[1..]);
      assert (b + 0x100 * rest) % 0x100 == b && (b + 0x100 * rest) / 0x100 == rest;
    }
  }

  lemma {:induction false} LittleEndianBound(bytes: seq<Byte>)
    ensures LittleEndian(bytes) < Pow2(8 * |bytes|)
  {
    if bytes != [] {
      LittleEndianBound(bytes[1..]);
      ByteStep(|bytes| - 1);
    }
  }

  lemma ByteStep(n: nat)
    ensures Pow2(8 * (n + 1)) == 0x100 * Pow2(8 * n)
  {
    var k := 8 * n;
    assert Pow2(k + 8) == 2 * Pow2(k + 7) == 4 * Pow2(k + 6) == 8 * Pow2(k + 5) == 16 * Pow2(k + 4);
    assert Pow2(k + 4) == 2 * Pow2(k + 3) == 4 * Pow2(k + 2) == 8 * Pow2(k + 1) == 16 * Pow2(k);
  }

  lemma {:induction false} LittleEndianOfEncode(amount: nat, length: nat)
    requires amount < Pow2(8 * length)
    ensures LittleEndian(EncodeLittleEndian(amount, length)) == amount
  {
    if length > 0 {
      ByteStep(length - 1);
      LittleEndianOfEncode(amount / 0x100, length - 1);
      assert EncodeLittleEndian(amount, length)[1..] == EncodeLittleEndian(amount / 0x100, length - 1);
    }
  }

  lemma {:induction false} LittleEndianAppend(bytes: seq<Byte>, b: Byte)
    ensures LittleEndian(bytes + [b]) == LittleEndian(bytes) + b * Pow2(8 * |bytes|)
  {
    if bytes == [] {
      assert bytes + [b] == [b];
    } else {
      assert (bytes + [b])[1..] == bytes[1..] + [b];
      LittleEndianAppend(bytes[1..], b);
      ByteStep(|bytes| - 1);
      var p := Pow2(8 * (|bytes| - 1));
      assert 0x100 * (b * p) == b * (0x100 * p);
    }
  }

  function ReadU64(bytes: seq<Byte>, offset: nat): Option<nat> {
    if offset + 8 <= |bytes| then Some(LittleEndian(bytes[offset..offset + 8])) else None
  }

  /** The shift-and-or loop reads the weighted sum of the eight bytes, or finds one missing. */
  method ReadU64LittleEndian(bytes: seq<Byte>, offset: nat) returns (value: Option<nat>)
    ensures value == ReadU64(bytes, offset)
    ensures value.Some? ==> value.value < Pow2(64)
  {
    var sum: nat := 0;
    var index := 0;
    while index < 8
      invariant 0 <= index <= 8
      invariant offset + index <= |bytes| || index == 0
      invariant sum == if index == 0 then 0 else LittleEndian(bytes[offset..offset + index])
    {
      if offset + index >= |bytes| { return None; }
      OrByte(bytes[offset..offset + index], bytes[offset + index]);
      assert bytes[offset..offset + index + 1] == bytes[offset..offset + index] + [bytes[offset + index]];
      sum := BitOr(sum, bytes[offset + index] * Pow2(8 * index));
      index := index + 1;
    }
    LittleEndianBound(bytes[offset..offset + 8]);
    return Some(sum);
  }

  lemma OrByte(read: seq<Byte>, byte: Byte)
    ensures BitOr(LittleEndian(read), byte * Pow2(8 * |read|)) == LittleEndian(read + [byte])
  {
    LittleEndianBound(read);
    OrAbove(LittleEndian(read), byte, 8 * |read|);
    LittleEndianAppend(read, byte);
  }

  /** `None` stands for data that is not base58. */
  function Decode(data: Option<seq<Byte>>): Decoded {
    if data.None? then Malformed
    else
      var bytes := data.value;
      if |bytes| > 0 && bytes[0] == TRANSFER_DISCRIMINATOR then
        if |bytes| != TRANSFER_DATA_LENGTH then Malformed
        else
          var amount := ReadU64(bytes, 1);
          if amount.None? then Malformed else Transfer(amount.value)
      else if |bytes| > 0 && bytes[0] == TRANSFER_CHECKED_DISCRIMINATOR then
        if |bytes| != TRANSFER_CHECKED_DATA_LENGTH then Malformed
        else
          var amount := ReadU64(bytes, 1);
          if amount.None? then Malformed else TransferChecked(amount.value, bytes[9])
      else Unsupported
  }

  /** Exactly the encoding of an amount below two to the 64 decodes to a transfer of that amount. */
  lemma TransferDecodesExactly(bytes: seq<Byte>, amount: nat)
    ensures Decode(Some(bytes)) == Transfer(amount)
       <==> amount < Pow2(64) && bytes == [TRANSFER_DISCRIMINATOR] + EncodeLittleEndian(amount, 8)
  {
    if |bytes| == 9 {
      EncodeOfLittleEndian(bytes[1..9]);
      LittleEndianBound(bytes[1..9]);
      if amount < Pow2(64) { LittleEndianOfEncode(amount, 8); }
      assert bytes == [bytes[0]] + bytes[1..9];
    }
    assert ([TRANSFER_DISCRIMINATOR] + EncodeLittleEndian(amount, 8))[1..9] == EncodeLittleEndian(amount, 8);
  }

  lemma TransferCheckedDecodesExactly(bytes: seq<Byte>, amount: nat, decimals: Byte)
    ensures Decode(Some(bytes)) == TransferChecked(amount, decimals)
       <==> amount < Pow2(64) && bytes == [TRANSFER_CHECKED_DISCRIMINATOR] + EncodeLittleEndian(amount, 8) + [decimals]
  {
    if |bytes| == 10 {
      EncodeOfLittleEndian(bytes[1..9]);
      LittleEndianBound(bytes[1..9]);
      if amount < Pow2(64) { LittleEndianOfEncode(amount, 8); }
      assert bytes == [bytes[0]] + bytes[1..9] + [bytes[9]];
    }
    assert ([TRANSFER_CHECKED_DISCRIMINATOR] + EncodeLittleEndian(amount, 8) + [decimals])[1..9] == EncodeLittleEndian(amount, 8);
  }
}
