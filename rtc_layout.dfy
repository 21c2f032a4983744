/** Layout of the persistent run record (rtcStore) in the ESP8266's RTC memory.

    The SDK addresses RTC memory in buckets of four bytes. On this target an
    `int` is four bytes too, so each field of the record fills exactly one
    bucket, in declaration order, and the record is stored from bucket
    RtcMemoryStart onwards. RTC memory is modelled as a sequence of buckets,
    each holding the 32-bit integer stored in it. */
module RtcLayout {

  /** RTCMEMORYSTART: first bucket of the record. */
  const RtcMemoryStart: nat := 65
  /** Bytes per RTC memory bucket. */
  const BucketBytes: nat := 4
  /** sizeof(int) on the ESP8266. */
  const IntBytes: nat := 4
  /** Number of int fields of rtcStore: count, thing, errCode, dummy. */
  const StoreFields: nat := 4
  /** sizeof(rtcStore). */
  const StoreBytes: nat := StoreFields * IntBytes
  /** Byte count readData passes to the SDK (not sizeof(rtcStore)). */
  const ReadBytes: nat := 8
  /** Buckets of RTC memory; the record starts at bucket RtcMemoryStart. */
  const RtcBuckets: nat := 192

  const Int32Min: int := -0x8000_0000
  const Int32Max: int := 0x7FFF_FFFF

  /** A C++ `int` on the ESP8266 (32 bits, two's complement). */
  type Int32 = x: int | Int32Min <= x <= Int32Max

  predicate InInt32(x: int) {
    Int32Min <= x <= Int32Max
  }

  /** rtcStore: the record that survives deep sleep. */
  datatype RtcStore = RtcStore(count: Int32, thing: Int32, errCode: Int32, dummy: Int32)

  /** The record's image in RTC memory, one bucket per field in declaration order. */
  function Fields(r: RtcStore): (s: seq<Int32>)
    ensures |s| == StoreFields
  {
    [r.count, r.thing, r.errCode, r.dummy]
  }

  /** The record whose image is `s`. */
  function FromFields(s: seq<Int32>): (r: RtcStore)
    requires |s| == StoreFields
    ensures Fields(r) == s
  {
    RtcStore(s[0], s[1], s[2], s[3])
  }

  /** Two records with the same image are the same record. */
  lemma FieldsInjective(r: RtcStore, s: RtcStore)
    requires Fields(r) == Fields(s)
    ensures r == s
  {
  }

  /** Byte offset of field `k` inside the record. */
  function FieldOffset(k: nat): nat {
    k * IntBytes
  }

  /** A copy of `b` (whole buckets) over the start of the record `r`, as the SDK
      read does when it is given fewer bytes than the record holds. */
  function Overlay(r: RtcStore, b: seq<Int32>): (o: RtcStore)
    requires |b| <= StoreFields
    ensures Fields(o)[..|b|] == b
    ensures Fields(o)[|b|..] == Fields(r)[|b|..]
  {
    FromFields(b + Fields(r)[|b|..])
  }

  /** Memory `mem` after buckets `b` are stored from bucket `addr` onwards. */
  function MemWrite(mem: seq<Int32>, addr: nat, b: seq<Int32>): (m: seq<Int32>)
    requires addr + |b| <= |mem|
    ensures |m| == |mem|
    ensures m[addr..addr + |b|] == b
    ensures forall i :: 0 <= i < |mem| && !(addr <= i < addr + |b|) ==> m[i] == mem[i]
  {
    mem[..addr] + b + mem[addr + |b|..]
  }
}
