/** The two encoders of OBD2 sensor masks: the sensor store, which sets bits as sensors are set, and
    the one the replay uses, which computes the mask from the values. */
module Obd2 {
  import opened VehicleTypes

  // 1 << b in a byte.
  function Mask(b: nat): bv8
    requires b < 8
  {
    if b == 0 then 1 else if b == 1 then 2 else if b == 2 then 4 else if b == 3 then 8
    else if b == 4 then 16 else if b == 5 then 32 else if b == 6 then 64 else 128
  }

  predicate BitOf(byte: bv8, b: nat)
    requires b < 8
  {
    byte & Mask(b) != 0
  }

  function WithBit(byte: bv8, b: nat, value: bool): bv8
    requires b < 8
  {
    if value then byte | Mask(b) else byte & !Mask(b)
  }

  /** Writing one bit of a byte writes that bit and no other. */
  lemma WithBitIs(byte: bv8, b: nat, value: bool, c: nat)
    requires b < 8 && c < 8
    ensures BitOf(WithBit(byte, b, value), c) == if c == b then value else BitOf(byte, c)
  {
  }

  lemma BitsDetermineByte(x: bv8, y: bv8)
    requires forall b: nat :: b < 8 ==> BitOf(x, b) == BitOf(y, b)
    ensures x == y
  {
    assert BitOf(x, 0) == BitOf(y, 0) && BitOf(x, 1) == BitOf(y, 1) && BitOf(x, 2) == BitOf(y, 2) &&
           BitOf(x, 3) == BitOf(y, 3);
    assert BitOf(x, 4) == BitOf(y, 4) && BitOf(x, 5) == BitOf(y, 5) && BitOf(x, 6) == BitOf(y, 6) &&
           BitOf(x, 7) == BitOf(y, 7);
  }

  predicate Bit(storage: seq<bv8>, i: nat)
    requires i < 8 * |storage|
  {
    BitOf(storage[i / 8], i % 8)
  }

  function BytesFor(bits: nat): (n: nat)
    ensures 8 * n - 8 < bits <= 8 * n
  {
    (bits + 7) / 8
  }

  /** The bits set in `storage` are exactly those in `s`, up to the padding of the last byte. */
  ghost predicate Encodes(storage: seq<bv8>, s: set<nat>) {
    forall i: nat :: i < 8 * |storage| ==> (Bit(storage, i) <==> i in s)
  }

  /** A mask is determined by its length and the bits it encodes. */
  lemma EncodingIsUnique(x: seq<bv8>, y: seq<bv8>, s: set<nat>)
    requires |x| == |y| && Encodes(x, s) && Encodes(y, s)
    ensures x == y
  {
    forall k | 0 <= k < |x| ensures x[k] == y[k] {
      forall b: nat | b < 8 ensures BitOf(x[k], b) == BitOf(y[k], b) {
        var i := 8 * k + b;
        assert i / 8 == k && i % 8 == b;
        assert Bit(x, i) == Bit(y, i);
      }
      BitsDetermineByte(x[k], y[k]);
    }
  }

  lemma SetOneBit(storage: seq<bv8>, i: nat, value: bool, s: set<nat>)
    requires i < 8 * |storage| && Encodes(storage, s)
    ensures Encodes(storage[i / 8 := WithBit(storage[i / 8], i % 8, value)], if value then s + {i} else s - {i})
  {
    var after := storage[i / 8 := WithBit(storage[i / 8], i % 8, value)];
    forall j: nat | j < 8 * |after| ensures Bit(after, j) <==> j in if value then s + {i} else s - {i} {
      assert Bit(storage, j) <==> j in s;
      if j / 8 == i / 8 {
        WithBitIs(storage[i / 8], i % 8, value, j % 8);
        assert j % 8 == i % 8 ==> j == i;
      }
    }
  }

  // ---- Which bit is which ----

  /** The byte in which bits 0 to 7, counted from the lowest, are as given. */
  function ByteWith(b0: bool, b1: bool, b2: bool, b3: bool, b4: bool, b5: bool, b6: bool, b7: bool): bv8 {
    (if b0 then 1 else 0) + (if b1 then 2 else 0) + (if b2 then 4 else 0) + (if b3 then 8 else 0) +
    (if b4 then 16 else 0) + (if b5 then 32 else 0) + (if b6 then 64 else 0) + (if b7 then 128 else 0)
  }

  lemma BitsOfByte(b0: bool, b1: bool, b2: bool, b3: bool, b4: bool, b5: bool, b6: bool, b7: bool)
    ensures var x := ByteWith(b0, b1, b2, b3, b4, b5, b6, b7);
            && BitOf(x, 0) == b0 && BitOf(x, 1) == b1 && BitOf(x, 2) == b2 && BitOf(x, 3) == b3
            && BitOf(x, 4) == b4 && BitOf(x, 5) == b5 && BitOf(x, 6) == b6 && BitOf(x, 7) == b7
  {
  }

  /** Byte k of the mask of `s`: sensor i adds 2 to the power i % 8 to byte i / 8. */
  function ByteOf(s: set<nat>, k: nat): bv8 {
    ByteWith(8 * k in s, 8 * k + 1 in s, 8 * k + 2 in s, 8 * k + 3 in s,
             8 * k + 4 in s, 8 * k + 5 in s, 8 * k + 6 in s, 8 * k + 7 in s)
  }

  lemma BitOfByte(s: set<nat>, k: nat, b: nat)
    requires b < 8
    ensures BitOf(ByteOf(s, k), b) <==> 8 * k + b in s
  {
    BitsOfByte(8 * k in s, 8 * k + 1 in s, 8 * k + 2 in s, 8 * k + 3 in s,
               8 * k + 4 in s, 8 * k + 5 in s, 8 * k + 6 in s, 8 * k + 7 in s);
    hide BitOf, ByteWith;
  }

  /** A mask encodes a set exactly when each of its bytes is that sum. */
  lemma EncodesExactly(storage: seq<bv8>, s: set<nat>)
    ensures Encodes(storage, s) <==> forall k :: 0 <= k < |storage| ==> storage[k] == ByteOf(s, k)
  {
    hide BitOf, ByteOf;
    if Encodes(storage, s) {
      forall k | 0 <= k < |storage| ensures storage[k] == ByteOf(s, k) {
        forall b: nat | b < 8 ensures BitOf(storage[k], b) == BitOf(ByteOf(s, k), b) {
          BitOfByte(s, k, b);
          var i := 8 * k + b;
          assert i / 8 == k && i % 8 == b;
          assert Bit(storage, i) <==> i in s;
        }
        BitsDetermineByte(storage[k], ByteOf(s, k));
      }
    }
    if forall k :: 0 <= k < |storage| ==> storage[k] == ByteOf(s, k) {
      forall i: nat | i < 8 * |storage| ensures Bit(storage, i) <==> i in s {
        BitOfByte(s, i / 8, i % 8);
        assert i == 8 * (i / 8) + i % 8;
      }
    }
  }

  lemma ZeroEncodesNothing(storage: seq<bv8>)
    requires forall k :: 0 <= k < |storage| ==> storage[k] == 0
    ensures Encodes(storage, {})
  {
  }

  class BitmaskInVector {
    var storage: array<bv8>
    var numBits: nat

    ghost predicate Valid()
      reads this
    {
      storage.Length == BytesFor(numBits)
    }

    constructor (numBits: nat)
      ensures Valid() && fresh(storage) && this.numBits == numBits && Encodes(storage[..], {})
    {
      this.numBits := numBits;
      storage := new bv8[BytesFor(numBits)](_ => 0);
      new;
      ZeroEncodesNothing(storage[..]);
    }

    method Set(index: nat, value: bool, ghost s: set<nat>) returns (ok: bool)
      requires Valid() && Encodes(storage[..], s)
      modifies storage
      ensures Valid() && ok == (index < numBits)
      ensures Encodes(storage[..], if !ok then s else if value then s + {index} else s - {index})
    {
      var byteIndex, bitIndex := index / 8, index % 8;
      if index >= numBits {
        return false;
      }
      SetOneBit(storage[..], index, value, s);
      var byte := storage[byteIndex];
      var newValue := if value then byte | Mask(bitIndex) else byte & !Mask(bitIndex);
      assert newValue == WithBit(byte, bitIndex, value);
      hide WithBit, Mask, Encodes;
      storage[byteIndex] := newValue;
      assert storage[..] == old(storage[..])[byteIndex := WithBit(byte, bitIndex, value)];
      return true;
    }

    method Get(index: nat) returns (bit: Option<bool>)
      requires Valid()
      ensures bit == if index < numBits then Some(Bit(storage[..], index)) else None
    {
      if index >= numBits {
        return None;
      }
      return Some(storage[index / 8] & Mask(index % 8) != 0);
    }
  }

  /** The store: values, and a mask with one bit for each sensor ever set. `recorded` are the mask
      positions of those sensors, the floats' after all the integers'. */
  class Obd2SensorStore {
    const integerSensors: array<int>
    const floatSensors: array<real>
    const sensorsBitmask: BitmaskInVector
    ghost var recorded: set<nat>

    ghost predicate Valid()
      reads this, sensorsBitmask, sensorsBitmask.storage
    {
      && sensorsBitmask.Valid()
      && sensorsBitmask.storage as object !in {integerSensors as object, floatSensors as object}
      && sensorsBitmask.numBits == integerSensors.Length + floatSensors.Length
      && Encodes(sensorsBitmask.storage[..], recorded)
    }

    constructor (numIntegerSensors: nat, numFloatSensors: nat)
      ensures Valid() && recorded == {} && fresh(sensorsBitmask) && fresh(sensorsBitmask.storage)
      ensures fresh(integerSensors) && fresh(floatSensors)
      ensures integerSensors.Length == numIntegerSensors && floatSensors.Length == numFloatSensors
      ensures integerSensors[..] == seq(numIntegerSensors, _ => 0) && floatSensors[..] == seq(numFloatSensors, _ => 0.0)
    {
      integerSensors := new int[numIntegerSensors](_ => 0);
      floatSensors := new real[numFloatSensors](_ => 0.0);
      sensorsBitmask := new BitmaskInVector(numIntegerSensors + numFloatSensors);
      recorded := {};
    }

    method SetIntegerSensor(index: nat, value: int) returns (status: StatusCode)
      requires Valid()
      modifies this`recorded, integerSensors, sensorsBitmask.storage
      ensures Valid() && status == if index < integerSensors.Length then Ok else InvalidArg
      ensures recorded == if status == Ok then old(recorded) + {index} else old(recorded)
      ensures integerSensors[..] ==
              if status == Ok then old(integerSensors[..])[index := value] else old(integerSensors[..])
    {
      if index >= integerSensors.Length {
        return InvalidArg;
      }
      hide Encodes;
      ghost var mask := sensorsBitmask.storage[..];
      integerSensors[index] := value;
      assert sensorsBitmask.storage[..] == mask;
      var ok := sensorsBitmask.Set(index, true, recorded);
      recorded := recorded + {index};
      return Ok;
    }

    method SetFloatSensor(index: nat, value: real) returns (status: StatusCode)
      requires Valid()
      modifies this`recorded, floatSensors, sensorsBitmask.storage
      ensures Valid() && status == if index < floatSensors.Length then Ok else InvalidArg
      ensures recorded == if status == Ok then old(recorded) + {integerSensors.Length + index} else old(recorded)
      ensures floatSensors[..] == if status == Ok then old(floatSensors[..])[index := value] else old(floatSensors[..])
    {
      if index >= floatSensors.Length {
        return InvalidArg;
      }
      hide Encodes;
      ghost var mask := sensorsBitmask.storage[..];
      floatSensors[index] := value;
      assert sensorsBitmask.storage[..] == mask;
      var ok := sensorsBitmask.Set(index + integerSensors.Length, true, recorded);
      recorded := recorded + {index + integerSensors.Length};
      return Ok;
    }
  }

  /** The mask positions of the sensors with a non-zero value. */
  function NonZero(ints: seq<int>, floats: seq<real>, numIntegerSensors: nat): set<nat> {
    (set i: nat | i < |ints| && ints[i] != 0) + (set i: nat | i < |floats| && floats[i] != 0.0 :: i + numIntegerSensors)
  }

  method SetBit(bytes: array<bv8>, idx: nat, ghost s: set<nat>)
    requires idx < 8 * bytes.Length && Encodes(bytes[..], s)
    modifies bytes
    ensures Encodes(bytes[..], s + {idx})
  {
    SetOneBit(bytes[..], idx, true, s);
    var byte := bytes[idx / 8];
    bytes[idx / 8] := byte | Mask(idx % 8);
    assert bytes[..] == old(bytes[..])[idx / 8 := WithBit(byte, idx % 8, true)];
  }

  method SetBitsOfNonZeroInts(bytes: array<bv8>, ints: seq<int>, n: nat)
    requires Encodes(bytes[..], {}) && forall i :: 0 <= i < |ints| && ints[i] != 0 ==> i < 8 * bytes.Length
    modifies bytes
    ensures Encodes(bytes[..], NonZero(ints, [], n))
  {
    hide Encodes;
    assert NonZero([], [], n) == {};
    for i := 0 to |ints|
      invariant Encodes(bytes[..], NonZero(ints[..i], [], n))
    {
      NonZeroGrowsWithInts(ints, i, n);
      hide NonZero;
      if ints[i] != 0 {
        SetBit(bytes, i, NonZero(ints[..i], [], n));
      }
    }
    assert ints[..|ints|] == ints;
  }

  method SetBitsOfNonZeroFloats(bytes: array<bv8>, ints: seq<int>, floats: seq<real>, n: nat)
    requires Encodes(bytes[..], NonZero(ints, [], n))
    requires forall i :: 0 <= i < |floats| && floats[i] != 0.0 ==> i + n < 8 * bytes.Length
    modifies bytes
    ensures Encodes(bytes[..], NonZero(ints, floats, n))
  {
    hide Encodes;
    hide NonZero;
    assert floats[..0] == [];
    for i := 0 to |floats|
      invariant Encodes(bytes[..], NonZero(ints, floats[..i], n))
    {
      NonZeroGrowsWithFloats(ints, floats, i, n);
      if floats[i] != 0.0 {
        SetBit(bytes, i + n, NonZero(ints, floats[..i], n));
      }
    }
    assert floats[..|floats|] == floats;
  }

  /** The mask of a replayed frame, which has no vendor sensors. The arrays may be longer than there are
      sensors, and integer sensors then share bits with float sensors; but a bit that is set has to lie
      within the mask, whose bounds are not checked. */
  method GenerateDiagnosticBytes(ints: seq<int>, floats: seq<real>, numIntegerSensors: nat, numFloatSensors: nat)
    returns (bytes: array<bv8>)
    requires var bits := 8 * BytesFor(numIntegerSensors + numFloatSensors);
             && (forall i :: 0 <= i < |ints| && ints[i] != 0 ==> i < bits)
             && (forall i :: 0 <= i < |floats| && floats[i] != 0.0 ==> i + numIntegerSensors < bits)
    ensures fresh(bytes) && bytes.Length == BytesFor(numIntegerSensors + numFloatSensors)
    ensures Encodes(bytes[..], NonZero(ints, floats, numIntegerSensors))
    ensures forall k :: 0 <= k < bytes.Length ==> bytes[k] == ByteOf(NonZero(ints, floats, numIntegerSensors), k)
  {
    bytes := new bv8[BytesFor(numIntegerSensors + numFloatSensors)](_ => 0);
    ZeroEncodesNothing(bytes[..]);
    SetBitsOfNonZeroInts(bytes, ints, numIntegerSensors);
    SetBitsOfNonZeroFloats(bytes, ints, floats, numIntegerSensors);
    EncodesExactly(bytes[..], NonZero(ints, floats, numIntegerSensors));
    assert forall k :: 0 <= k < bytes.Length ==> bytes[k] == bytes[..][k];
  }

  lemma NonZeroGrowsWithInts(ints: seq<int>, i: nat, n: nat)
    requires i < |ints|
    ensures NonZero(ints[..i + 1], [], n) ==
            if ints[i] != 0 then NonZero(ints[..i], [], n) + {i} else NonZero(ints[..i], [], n)
  {
  }

  lemma NonZeroGrowsWithFloats(ints: seq<int>, floats: seq<real>, i: nat, n: nat)
    requires i < |floats|
    ensures NonZero(ints, floats[..i + 1], n) ==
            if floats[i] != 0.0 then NonZero(ints, floats[..i], n) + {i + n} else NonZero(ints, floats[..i], n)
  {
    assert forall j: nat :: j < i ==> floats[..i + 1][j] == floats[..i][j];
  }

  /** Byte for byte, the mask of a store without vendor sensors in which exactly the non-zero sensors
      were set is what the generator computes. */
  lemma EncodersAgree(store: Obd2SensorStore, bytes: seq<bv8>, ints: seq<int>, floats: seq<real>)
    requires store.Valid() && store.recorded == NonZero(ints, floats, store.integerSensors.Length)
    requires |bytes| == BytesFor(store.integerSensors.Length + store.floatSensors.Length)
    requires Encodes(bytes, NonZero(ints, floats, store.integerSensors.Length))
    ensures store.sensorsBitmask.storage[..] == bytes
    ensures forall k :: 0 <= k < |bytes| ==> bytes[k] == ByteOf(NonZero(ints, floats, store.integerSensors.Length), k)
  {
    EncodesExactly(bytes, NonZero(ints, floats, store.integerSensors.Length));
    EncodingIsUnique(store.sensorsBitmask.storage[..], bytes, store.recorded);
  }
}
