/**
 * The byte layout of the effect-parameter protocol in DspFeature.kt
 * (`setParameterShort`, `setParameterFloatArray`): Kotlin `Int`, `Short` and `Byte`
 * values, the `toByte()`/`toShort()` truncations, arithmetic `shr`, and the
 * `ByteBuffer` that lays float words out in the platform's native byte order.
 */
module DspCodec {

  /** Kotlin `Byte`, `Short` and `Int`: two's-complement signed integers. */
  type Int8 = x: int | -0x80 <= x < 0x80
  type Int16 = x: int | -0x8000 <= x < 0x8000
  type Int32 = x: int | -0x8000_0000 <= x < 0x8000_0000

  /** `toByte()`: keep the low 8 bits and read them as a signed byte. */
  function ToByte(x: int): (b: Int8)
    ensures (b - x) % 0x100 == 0
  {
    var u := x % 0x100;
    if u < 0x80 then u else u - 0x100
  }

  /** `toShort()`: keep the low 16 bits and read them as a signed short. */
  function ToShort(x: int): (s: Int16)
    ensures (s - x) % 0x1_0000 == 0
    ensures -0x8000 <= x < 0x8000 ==> s == x
  {
    var u := x % 0x1_0000;
    if u < 0x8000 then u else u - 0x1_0000
  }

  /** The unsigned reading of a byte, as the native side sees it. */
  function Unsigned(b: Int8): (u: int)
    ensures 0 <= u < 0x100 && (u - b) % 0x100 == 0
  {
    if b < 0 then b + 0x100 else b
  }

  /** Bits 8i..8i+7 of the 32-bit two's-complement pattern of `x`. */
  function ByteLane(x: Int32, i: nat): (u: int)
    requires i < 4
    ensures 0 <= u < 0x100
  {
    var bits := x % 0x1_0000_0000;
    if i == 0 then bits % 0x100
    else if i == 1 then bits / 0x100 % 0x100
    else if i == 2 then bits / 0x1_0000 % 0x100
    else bits / 0x100_0000
  }

  /** The parameter id argument: `parameter.toByte(), (parameter shr 8).toByte(),
      (parameter shr 16).toByte(), (parameter shr 24).toByte()`. Kotlin's `shr` on a
      non-negative shift is division rounding down, which Dafny's `/` is for a positive divisor. */
  function EncodeParameterId(p: Int32): (bytes: seq<Int8>)
  {
    [ToByte(p), ToByte(p / 0x100), ToByte(p / 0x1_0000), ToByte(p / 0x100_0000)]
  }

  /** Reassembles four bytes, low byte first, into a signed 32-bit value. */
  function DecodeInt32(bytes: seq<Int8>): (x: Int32)
    requires |bytes| == 4
  {
    var u := Unsigned(bytes[0]) + 0x100 * Unsigned(bytes[1])
             + 0x1_0000 * Unsigned(bytes[2]) + 0x100_0000 * Unsigned(bytes[3]);
    if u < 0x8000_0000 then u else u - 0x1_0000_0000
  }

  /** A short value argument: `value.toByte(), (value.toInt() shr 8).toByte()`. */
  function EncodeShort(v: Int16): (bytes: seq<Int8>)
  {
    [ToByte(v), ToByte(v / 0x100)]
  }

  /** `low | high << 8` over the unsigned bytes, read as a signed 16-bit value. */
  function DecodeShort(bytes: seq<Int8>): (v: Int16)
    requires |bytes| == 2
  {
    var u := Unsigned(bytes[0]) + 0x100 * Unsigned(bytes[1]);
    if u < 0x8000 then u else u - 0x1_0000
  }

  /** `x / d` and `x % d` split `x` exactly, with the remainder in range. */
  lemma DivModSplit(x: int, d: int)
    requires d > 0
    ensures x == d * (x / d) + x % d && 0 <= x % d < d
  {
  }

  /** The two's-complement pattern of `x`, split into its low byte and the rest. */
  lemma LowByte(x: int)
    ensures Unsigned(ToByte(x)) == x % 0x100
  {
  }

  /** The 32-bit pattern of an `Int`: the value itself, or the value plus 2^32 when it is
      negative. */
  lemma Wrap32(p: Int32)
    ensures p >= 0 ==> p % 0x1_0000_0000 == p
    ensures p < 0 ==> p % 0x1_0000_0000 == p + 0x1_0000_0000
  {
  }

  /** Adding a multiple of 256 keeps the low byte. */
  lemma ShiftLow(x: int, k: int)
    ensures (x + 0x100 * k) % 0x100 == x % 0x100
  {
  }

  lemma Quotient8(p: int)
    ensures (p + 0x1_0000_0000) / 0x100 == p / 0x100 + 0x100_0000
  {
  }

  lemma Quotient16(p: int)
    ensures (p + 0x1_0000_0000) / 0x1_0000 == p / 0x1_0000 + 0x1_0000
  {
  }

  lemma Quotient24(p: int)
    ensures (p + 0x1_0000_0000) / 0x100_0000 == p / 0x100_0000 + 0x100
  {
  }

  /** Byte 0 of the parameter id is bits 0..7. */
  lemma Lane0(p: Int32)
    ensures Unsigned(ToByte(p)) == ByteLane(p, 0)
  {
    Wrap32(p);
    LowByte(p);
    if p < 0 { ShiftLow(p, 0x100_0000); }
  }

  /** Byte 1 of the parameter id is bits 8..15. */
  lemma Lane1(p: Int32)
    ensures Unsigned(ToByte(p / 0x100)) == ByteLane(p, 1)
  {
    Wrap32(p);
    LowByte(p / 0x100);
    if p < 0 {
      Quotient8(p);
      ShiftLow(p / 0x100, 0x1_0000);
    }
  }

  /** Byte 2 of the parameter id is bits 16..23. */
  lemma Lane2(p: Int32)
    ensures Unsigned(ToByte(p / 0x1_0000)) == ByteLane(p, 2)
  {
    Wrap32(p);
    LowByte(p / 0x1_0000);
    if p < 0 {
      Quotient16(p);
      ShiftLow(p / 0x1_0000, 0x100);
    }
  }

  /** Byte 3 of the parameter id is bits 24..31. */
  lemma Lane3(p: Int32)
    ensures Unsigned(ToByte(p / 0x100_0000)) == ByteLane(p, 3)
  {
    Wrap32(p);
    LowByte(p / 0x100_0000);
    if p < 0 {
      Quotient24(p);
      ShiftLow(p / 0x100_0000, 1);
    }
  }

  /** Byte i of the parameter id is bits 8i..8i+7 of the id. */
  lemma ParameterIdLanes(p: Int32)
    ensures |EncodeParameterId(p)| == 4
    ensures forall i :: 0 <= i < 4 ==> Unsigned(EncodeParameterId(p)[i]) == ByteLane(p, i)
  {
    Lane0(p);
    Lane1(p);
    Lane2(p);
    Lane3(p);
  }

  /** Four byte lanes put back together give the 32-bit pattern. */
  lemma LanesCompose(bits: int)
    requires 0 <= bits < 0x1_0000_0000
    ensures bits % 0x100 + 0x100 * (bits / 0x100 % 0x100) + 0x1_0000 * (bits / 0x1_0000 % 0x100)
            + 0x100_0000 * (bits / 0x100_0000) == bits
  {
    DivModSplit(bits, 0x100);
    DivModSplit(bits / 0x100, 0x100);
    DivModSplit(bits / 0x1_0000, 0x100);
    assert bits / 0x100 / 0x100 == bits / 0x1_0000;
    assert bits / 0x1_0000 / 0x100 == bits / 0x100_0000;
  }

  /** The parameter id reassembles from its four bytes. */
  lemma ParameterIdRoundTrip(p: Int32)
    ensures DecodeInt32(EncodeParameterId(p)) == p
  {
    var e := EncodeParameterId(p);
    Lane0(p);
    Lane1(p);
    Lane2(p);
    Lane3(p);
    var bits := p % 0x1_0000_0000;
    LanesCompose(bits);
    Wrap32(p);
    var u := Unsigned(e[0]) + 0x100 * Unsigned(e[1])
             + 0x1_0000 * Unsigned(e[2]) + 0x100_0000 * Unsigned(e[3]);
    assert u == bits;
  }

  /** A short value is two bytes, low then high, and reassembles to itself. */
  lemma {:induction false} ShortRoundTrip(v: Int16)
    ensures |EncodeShort(v)| == 2
    ensures Unsigned(EncodeShort(v)[0]) == v % 0x100
    ensures Unsigned(EncodeShort(v)[1]) == v % 0x1_0000 / 0x100
    ensures DecodeShort(EncodeShort(v)) == v
  {
    var bits := v % 0x1_0000;
    var k := if v < 0 then 1 else 0;
    assert bits == v + k * 0x1_0000;
    LowByte(v);
    LowByte(v / 0x100);
    assert bits / 0x100 == v / 0x100 + k * 0x100;
    DivModSplit(bits, 0x100);
  }

  /** `ByteOrder.nativeOrder()`: the platform's byte order, a parameter of the model. */
  datatype ByteOrder = LittleEndian | BigEndian

  /** `ByteBuffer.putFloat`: the float's raw 32-bit word, laid out in the buffer's order. */
  function WordBytes(w: Int32, order: ByteOrder): (bytes: seq<Int8>)
    ensures |bytes| == 4
  {
    var le := EncodeParameterId(w);
    if order == LittleEndian then le else [le[3], le[2], le[1], le[0]]
  }

  /** Byte i of a word in the buffer is lane i of the word in little-endian order and
      lane 3 - i in big-endian order. */
  lemma WordBytesLanes(w: Int32, order: ByteOrder)
    ensures forall i :: 0 <= i < 4 ==>
      Unsigned(WordBytes(w, order)[i]) == ByteLane(w, if order == LittleEndian then i else 3 - i)
  {
    ParameterIdLanes(w);
  }

  /** Reads one raw float word back in the given order. */
  function DecodeWord(bytes: seq<Int8>, order: ByteOrder): (w: Int32)
    requires |bytes| == 4
  {
    if order == LittleEndian then DecodeInt32(bytes)
    else DecodeInt32([bytes[3], bytes[2], bytes[1], bytes[0]])
  }

  /** The bytes a buffer of N floats holds after N `putFloat` calls. */
  function FloatArrayBytes(words: seq<Int32>, order: ByteOrder): (bytes: seq<Int8>)
  {
    if words == [] then [] else WordBytes(words[0], order) + FloatArrayBytes(words[1..], order)
  }

  /** Splits a buffer back into float words. */
  function DecodeFloatArray(bytes: seq<Int8>, order: ByteOrder): (words: seq<Int32>)
    requires |bytes| % 4 == 0
    decreases |bytes|
  {
    if bytes == [] then [] else [DecodeWord(bytes[..4], order)] + DecodeFloatArray(bytes[4..], order)
  }

  /** The buffer has 4·N bytes, and word i sits at bytes 4i..4i+3. */
  lemma {:induction false} FloatArrayLayout(words: seq<Int32>, order: ByteOrder)
    ensures |FloatArrayBytes(words, order)| == 4 * |words|
    ensures forall i :: 0 <= i < |words| ==>
      FloatArrayBytes(words, order)[4 * i .. 4 * i + 4] == WordBytes(words[i], order)
  {
    if words != [] {
      FloatArrayLayout(words[1..], order);
      var rest := FloatArrayBytes(words[1..], order);
      var all := FloatArrayBytes(words, order);
      assert all == WordBytes(words[0], order) + rest;
      forall i | 0 <= i < |words|
        ensures all[4 * i .. 4 * i + 4] == WordBytes(words[i], order)
      {
        if i == 0 {
          assert all[..4] == WordBytes(words[0], order);
        } else {
          assert all[4 * i .. 4 * i + 4] == rest[4 * (i - 1) .. 4 * (i - 1) + 4];
          assert words[1..][i - 1] == words[i];
        }
      }
    }
  }

  /** Appending a word to the array appends its four bytes to the buffer. */
  lemma {:induction false} FloatArrayAppend(words: seq<Int32>, w: Int32, order: ByteOrder)
    ensures FloatArrayBytes(words + [w], order) == FloatArrayBytes(words, order) + WordBytes(w, order)
  {
    if words == [] {
      assert [w][1..] == [];
    } else {
      assert (words + [w])[1..] == words[1..] + [w];
      FloatArrayAppend(words[1..], w, order);
    }
  }

  /** One raw float word survives the buffer. */
  lemma WordRoundTrip(w: Int32, order: ByteOrder)
    ensures DecodeWord(WordBytes(w, order), order) == w
  {
    ParameterIdRoundTrip(w);
    var le := EncodeParameterId(w);
    if order == BigEndian {
      assert [le[3], le[2], le[1], le[0]][3] == le[0];
      assert [WordBytes(w, order)[3], WordBytes(w, order)[2], WordBytes(w, order)[1],
              WordBytes(w, order)[0]] == le;
    }
  }

  /** Every float word written into the buffer is read back unchanged. */
  lemma {:induction false} FloatArrayRoundTrip(words: seq<Int32>, order: ByteOrder)
    ensures |FloatArrayBytes(words, order)| % 4 == 0
    ensures DecodeFloatArray(FloatArrayBytes(words, order), order) == words
  {
    FloatArrayLayout(words, order);
    if words != [] {
      var bytes := FloatArrayBytes(words, order);
      assert bytes[..4] == WordBytes(words[0], order);
      assert bytes[4..] == FloatArrayBytes(words[1..], order);
      WordRoundTrip(words[0], order);
      FloatArrayRoundTrip(words[1..], order);
    }
  }

  /** `ByteArray(value.size * 4)` filled by `for (i in value.indices) putFloat(value[i])`.
      The floats are given as their raw words (`Float.floatToRawIntBits`). */
  method FillFloatBuffer(words: seq<Int32>, order: ByteOrder) returns (bytes: seq<Int8>)
    ensures bytes == FloatArrayBytes(words, order)
    ensures |bytes| == 4 * |words|
  {
    var result := new Int8[4 * |words|];
    var i := 0;
    while i < |words|
      invariant 0 <= i <= |words|
      invariant result.Length == 4 * |words|
      invariant result[..4 * i] == FloatArrayBytes(words[..i], order)
    {
      PutFloat(result, 4 * i, words[i], order);
      FloatArrayAppend(words[..i], words[i], order);
      assert words[..i + 1] == words[..i] + [words[i]];
      i := i + 1;
    }
    assert words[..|words|] == words;
    assert result[..] == result[..4 * |words|];
    bytes := result[..];
    FloatArrayLayout(words, order);
  }

  /** `putFloat` at byte position `at`: the word's four bytes follow what is already
      written, and the bytes after them are untouched. */
  method PutFloat(buffer: array<Int8>, at: nat, w: Int32, order: ByteOrder)
    requires at + 4 <= buffer.Length
    modifies buffer
    ensures buffer[..at + 4] == old(buffer[..at]) + WordBytes(w, order)
    ensures buffer[at + 4..] == old(buffer[at + 4..])
  {
    var wb := WordBytes(w, order);
    buffer[at] := wb[0];
    buffer[at + 1] := wb[1];
    buffer[at + 2] := wb[2];
    buffer[at + 3] := wb[3];
    assert buffer[..at + 4] == old(buffer[..at]) + wb by {
      forall j | 0 <= j < at + 4 ensures buffer[..at + 4][j] == (old(buffer[..at]) + wb)[j] {
      }
    }
  }
}
