/**
 * The signature's layout in EEPROM: an `int` length at RECORDING_ADDR,
 * then `length` floats, each INT_SIZE/FLOAT_SIZE bytes further on. Every
 * put/get of one value is modelled as one opaque cell at its address.
 */
module Store {
  import opened Common

  datatype Cell = IntCell(i: int) | FloatCell(f: real)

  type Eeprom = map<int, Cell>

  /** An `int` read from erased EEPROM (all bytes 0xFF) is -1. */
  const ERASED_INT: int := -1

  /** Address of the k-th value of the signature. */
  function ValueAddr(k: nat): (addr: int)
    ensures addr >= RECORDING_ADDR + INT_SIZE
  {
    RECORDING_ADDR + INT_SIZE + k * FLOAT_SIZE
  }

  /** `EEPROM.get` of an `int`. */
  function GetInt(e: Eeprom, addr: int): (r: int)
    ensures addr in e && e[addr].IntCell? ==> r == e[addr].i
    ensures r != ERASED_INT ==> addr in e && e[addr] == IntCell(r)
  {
    if addr in e && e[addr].IntCell? then e[addr].i else ERASED_INT
  }

  /** `EEPROM.get` of a `float`; a cell that holds no float reads as 0.0. */
  function GetFloat(e: Eeprom, addr: int): (r: real)
    ensures addr in e && e[addr].FloatCell? ==> r == e[addr].f
    ensures r != 0.0 ==> addr in e && e[addr] == FloatCell(r)
  {
    if addr in e && e[addr].FloatCell? then e[addr].f else 0.0
  }

  /** The EEPROM after putting data[0 .. count) at their value addresses, in order. */
  function PutValues(e: Eeprom, data: seq<real>, count: nat): Eeprom
    requires count <= |data|
  {
    if count == 0 then e
    else PutValues(e, data, count - 1)[ValueAddr(count - 1) := FloatCell(data[count - 1])]
  }

  /** The EEPROM after saving the signature `data`: the length, then the values. */
  function Saved(e: Eeprom, data: seq<real>): Eeprom
  {
    PutValues(e[RECORDING_ADDR := IntCell(|data|)], data, |data|)
  }

  /** The length field, as read back without any check. */
  function StoredLength(e: Eeprom): int
  {
    GetInt(e, RECORDING_ADDR)
  }

  /** The first n values, as read back. */
  function LoadedValues(e: Eeprom, n: nat): (r: seq<real>)
    ensures |r| == n
  {
    seq(n, k requires 0 <= k < n => GetFloat(e, ValueAddr(k)))
  }

  /**
   * The reference signature a bounds-checked load yields: the stored values
   * when the length field is within 0 .. MAX_SIZE, no reference otherwise.
   */
  function Reference(e: Eeprom): (r: seq<real>)
    ensures |r| <= MAX_SIZE
  {
    var n := StoredLength(e);
    if 0 <= n <= MAX_SIZE then LoadedValues(e, n) else []
  }

  /** Putting the first `count` values touches exactly their addresses. */
  lemma {:induction false} PutValuesEffect(e: Eeprom, data: seq<real>, count: nat)
    requires count <= |data|
    ensures forall k :: 0 <= k < count ==> GetFloat(PutValues(e, data, count), ValueAddr(k)) == data[k]
    ensures forall addr :: (addr < ValueAddr(0) || addr >= ValueAddr(count)) ==>
      (addr in PutValues(e, data, count) <==> addr in e) &&
      (addr in e ==> PutValues(e, data, count)[addr] == e[addr])
  {
    if count > 0 {
      PutValuesEffect(e, data, count - 1);
      forall k | 0 <= k < count - 1
        ensures ValueAddr(k) != ValueAddr(count - 1)
      {
      }
    }
  }

  /** Loading after saving yields the saved length and values. */
  lemma LoadAfterSave(e: Eeprom, data: seq<real>)
    ensures StoredLength(Saved(e, data)) == |data|
    ensures LoadedValues(Saved(e, data), |data|) == data
  {
    var start := e[RECORDING_ADDR := IntCell(|data|)];
    PutValuesEffect(start, data, |data|);
    assert RECORDING_ADDR < ValueAddr(0);
  }

  /** Saving writes only the cells in [RECORDING_ADDR, RECORDING_ADDR + INT_SIZE + |data| * FLOAT_SIZE). */
  lemma SaveFrame(e: Eeprom, data: seq<real>, addr: int)
    requires addr < RECORDING_ADDR || addr >= RECORDING_ADDR + INT_SIZE + |data| * FLOAT_SIZE
    ensures addr in Saved(e, data) <==> addr in e
    ensures addr in e ==> Saved(e, data)[addr] == e[addr]
  {
    PutValuesEffect(e[RECORDING_ADDR := IntCell(|data|)], data, |data|);
  }

  /** A signature that fits the buffers is the reference after it is saved. */
  lemma ReferenceAfterSave(e: Eeprom, data: seq<real>)
    requires |data| <= MAX_SIZE
    ensures Reference(Saved(e, data)) == data
  {
    LoadAfterSave(e, data);
  }

  /**
   * The length field is trusted as written: saving MAX_SIZE + 1 values (what
   * the acquisition guard admits) leaves a length no buffer can hold, and
   * a bounds-checked load then reports no reference.
   */
  lemma OversizedLengthIsStored(e: Eeprom, data: seq<real>)
    requires |data| == MAX_SIZE + 1
    ensures StoredLength(Saved(e, data)) > MAX_SIZE
    ensures Reference(Saved(e, data)) == []
  {
    LoadAfterSave(e, data);
  }
}
