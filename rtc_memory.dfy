/** The rtcMemory class: access to the run record kept in the ESP8266's RTC
    memory across deep sleep. The global record `myData` and RTC memory are the
    fields of the object. The five public methods that change state (ReadData,
    WriteData, IncrementCount, SetError, SetCount) state their new state
    outright and also as one Step of the call semantics in module RtcSemantics;
    Count and Error change nothing, and the two SDK copies are helpers. */
module Rtc {
  import opened RtcLayout
  import opened RtcSemantics

  class RtcMemory {
    /** The global record `myData`. */
    var myData: RtcStore
    /** RTC memory, bucket by bucket. */
    var rtc: array<Int32>

    ghost predicate Valid()
      reads this
    {
      rtc.Length == RtcBuckets
    }

    /** The state the call semantics speaks of. */
    ghost function State(): (m: Machine)
      reads this, rtc
      requires Valid()
      ensures WellFormed(m)
    {
      Machine(myData, rtc[..])
    }

    /** Start of a wake cycle: `myData` has static storage and starts zeroed;
        RTC memory keeps whatever the previous cycle left in it. */
    constructor (rtc: array<Int32>)
      requires rtc.Length == RtcBuckets
      ensures Valid() && this.rtc == rtc
      ensures myData == RtcStore(0, 0, 0, 0)
    {
      myData := RtcStore(0, 0, 0, 0);
      this.rtc := rtc;
    }

    /** system_rtc_mem_read: copies `loadSize` bytes, in whole buckets, from
        bucket `srcAddr` onwards over the start of `myData`. */
    method SystemRtcMemRead(srcAddr: nat, loadSize: nat)
      requires Valid()
      requires loadSize % BucketBytes == 0 && loadSize <= StoreBytes
      requires srcAddr + loadSize / BucketBytes <= rtc.Length
      modifies this`myData
      ensures Valid()
      ensures myData == Overlay(old(myData), rtc[srcAddr..srcAddr + loadSize / BucketBytes])
    {
      myData := Overlay(myData, rtc[srcAddr..srcAddr + loadSize / BucketBytes]);
    }

    /** system_rtc_mem_write: copies the first `saveSize` bytes of `myData`, in
        whole buckets, into RTC memory from bucket `desAddr` onwards. */
    method SystemRtcMemWrite(desAddr: nat, saveSize: nat)
      requires Valid()
      requires saveSize % BucketBytes == 0 && saveSize <= StoreBytes
      requires desAddr + saveSize / BucketBytes <= rtc.Length
      modifies rtc
      ensures Valid()
      ensures rtc[..] == MemWrite(old(rtc[..]), desAddr, Fields(myData)[..saveSize / BucketBytes])
    {
      var image := Fields(myData)[..saveSize / BucketBytes];
      forall i | 0 <= i < |image| {
        rtc[desAddr + i] := image[i];
      }
      assert rtc[..] == MemWrite(old(rtc[..]), desAddr, image) by {
        var expected := MemWrite(old(rtc[..]), desAddr, image);
        forall i | 0 <= i < rtc.Length ensures rtc[i] == expected[i] {
          if desAddr <= i < desAddr + |image| {
            assert expected[i] == expected[desAddr..desAddr + |image|][i - desAddr];
          }
        }
      }
    }

    /** readData: loads only 8 bytes, so count and thing come from buckets 65
        and 66 while errCode and dummy keep their in-memory values. */
    method ReadData()
      requires Valid()
      modifies this`myData
      ensures Valid()
      ensures myData == old(myData).(count := rtc[RtcMemoryStart], thing := rtc[RtcMemoryStart + 1])
      ensures State() == Step(old(State()), Call.ReadData)
    {
      SystemRtcMemRead(RtcMemoryStart, ReadBytes);
      ghost var expected := old(myData).(count := rtc[RtcMemoryStart], thing := rtc[RtcMemoryStart + 1]);
      assert Fields(myData) == Fields(expected) by {
        assert Fields(myData)[..2] == rtc[RtcMemoryStart..RtcMemoryStart + 2];
        assert Fields(myData)[2..] == Fields(old(myData))[2..];
        assert Fields(myData) == Fields(myData)[..2] + Fields(myData)[2..];
      }
      FieldsInjective(myData, expected);
    }

    /** writeData: stores the whole record, sizeof(rtcStore) bytes, in buckets
        65 to 68; no other bucket and not the record changes. */
    method WriteData()
      requires Valid()
      modifies rtc
      ensures Valid()
      ensures rtc[RtcMemoryStart] == myData.count && rtc[RtcMemoryStart + 1] == myData.thing
      ensures rtc[RtcMemoryStart + 2] == myData.errCode && rtc[RtcMemoryStart + 3] == myData.dummy
      ensures forall i :: 0 <= i < rtc.Length && !InRecord(i) ==> rtc[i] == old(rtc[i])
      ensures State() == Step(old(State()), Call.WriteData)
    {
      SystemRtcMemWrite(RtcMemoryStart, StoreBytes);
      assert Fields(myData)[..StoreBytes / BucketBytes] == Fields(myData);
      assert rtc[RtcMemoryStart..RtcMemoryStart + StoreFields] == Fields(myData);
      assert rtc[RtcMemoryStart + 2] == rtc[RtcMemoryStart..RtcMemoryStart + StoreFields][2];
      assert rtc[RtcMemoryStart + 3] == rtc[RtcMemoryStart..RtcMemoryStart + StoreFields][3];
    }

    /** count(): the run counter, with no change of state. */
    method Count() returns (c: Int32)
      ensures c == myData.count
    {
      c := myData.count;
    }

    /** incrementCount: count goes up by one in memory only; RTC memory is not
        written. The increment must not overflow. */
    method IncrementCount()
      requires Valid()
      requires InInt32(myData.count + 1)
      modifies this`myData
      ensures Valid()
      ensures myData == old(myData).(count := old(myData.count) + 1)
      ensures State() == Step(old(State()), Call.IncrementCount)
    {
      myData := myData.(count := myData.count + 1);
    }

    /** error(): the error code, with no change of state. */
    method Error() returns (e: Int32)
      ensures e == myData.errCode
    {
      e := myData.errCode;
    }

    /** setError: adds `error` to the error code in memory only (it does not
        overwrite it). The sum must not overflow. */
    method SetError(error: Int32)
      requires Valid()
      requires InInt32(myData.errCode + error)
      modifies this`myData
      ensures Valid()
      ensures myData == old(myData).(errCode := old(myData.errCode) + error)
      ensures State() == Step(old(State()), Call.SetError(error))
    {
      myData := myData.(errCode := myData.errCode + error);
    }

    /** setCount: sets count, then persists the whole record with writeData. */
    method SetCount(newValue: Int32)
      requires Valid()
      modifies this`myData, rtc
      ensures Valid()
      ensures myData == old(myData).(count := newValue)
      ensures rtc[RtcMemoryStart..RtcMemoryStart + StoreFields] == Fields(myData)
      ensures forall i :: 0 <= i < rtc.Length && !InRecord(i) ==> rtc[i] == old(rtc[i])
      ensures State() == Step(old(State()), Call.SetCount(newValue))
    {
      myData := myData.(count := newValue);
      WriteData();
      assert rtc[RtcMemoryStart..RtcMemoryStart + StoreFields] == Fields(myData);
    }
  }
}
