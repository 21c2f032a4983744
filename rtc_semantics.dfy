/** What each public call of the rtcMemory class does to the program's state,
    as pure functions: the in-memory record `myData` together with the RTC
    memory. The class in module Rtc is proved to follow these definitions; the
    lemmas here state what sequences of calls, and deep sleep, do. */
module RtcSemantics {
  import opened RtcLayout

  datatype Option<T> = None | Some(value: T)

  /** The state the class works on: the global `myData` and RTC memory. */
  datatype Machine = Machine(data: RtcStore, rtc: seq<Int32>)

  predicate WellFormed(m: Machine) {
    |m.rtc| == RtcBuckets
  }

  /** The calls an rtcMemory object answers that change state. */
  datatype Call = ReadData | WriteData | IncrementCount | SetError(error: Int32) | SetCount(newValue: Int32)

  /** Buckets readData copies: its 8 bytes. */
  const ReadBucketCount: nat := ReadBytes / BucketBytes
  /** Buckets writeData copies: sizeof(rtcStore). */
  const WriteBucketCount: nat := StoreBytes / BucketBytes

  /** True when bucket `i` may be written by the record store. */
  predicate InRecord(i: int) {
    RtcMemoryStart <= i < RtcMemoryStart + WriteBucketCount
  }

  /** Every bucket outside the record, the SDK's reserved area included, is the
      same in `before` and `after`. */
  predicate OnlyRecordChanged(before: seq<Int32>, after: seq<Int32>) {
    |after| == |before| &&
    forall i :: 0 <= i < |before| && !InRecord(i) ==> after[i] == before[i]
  }

  /** The record after readData: the first two buckets overwrite count and thing. */
  function Load(m: Machine): RtcStore
    requires WellFormed(m)
  {
    Overlay(m.data, m.rtc[RtcMemoryStart..RtcMemoryStart + ReadBucketCount])
  }

  /** RTC memory after writeData: the whole record is stored. */
  function Save(m: Machine): seq<Int32>
    requires WellFormed(m)
  {
    MemWrite(m.rtc, RtcMemoryStart, Fields(m.data))
  }

  /** No field crosses a bucket boundary: every byte of field `k`, counted from
      the record's first byte at bucket RtcMemoryStart, lies in bucket
      RtcMemoryStart + k, and that is the bucket writeData stores field `k` in
      and readData (for count and thing) loads it from. */
  lemma FieldInItsBucket(m: Machine, k: nat, j: nat)
    requires WellFormed(m) && k < StoreFields && j < IntBytes
    ensures (RtcMemoryStart * BucketBytes + FieldOffset(k) + j) / BucketBytes == RtcMemoryStart + k
    ensures Save(m)[RtcMemoryStart + k] == Fields(m.data)[k]
    ensures k < ReadBucketCount ==> Fields(Load(m))[k] == m.rtc[RtcMemoryStart + k]
  {
    var saved := Save(m);
    assert saved[RtcMemoryStart + k] == saved[RtcMemoryStart..RtcMemoryStart + StoreFields][k];
    var loaded := Load(m);
    if k < ReadBucketCount {
      assert Fields(loaded)[k] == Fields(loaded)[..ReadBucketCount][k];
    }
  }

  /** The call is defined behaviour in C++: neither `count++` nor
      `errCode += error` overflows a signed int. */
  predicate Defined(m: Machine, c: Call) {
    match c
    case IncrementCount => InInt32(m.data.count + 1)
    case SetError(e) => InInt32(m.data.errCode + e)
    case _ => true
  }

  /** The state after one call. */
  function Step(m: Machine, c: Call): (m': Machine)
    requires WellFormed(m) && Defined(m, c)
    ensures WellFormed(m')
    ensures OnlyRecordChanged(m.rtc, m'.rtc)
  {
    match c
    case ReadData => m.(data := Load(m))
    case WriteData => m.(rtc := Save(m))
    case IncrementCount => m.(data := m.data.(count := m.data.count + 1))
    case SetError(e) => m.(data := m.data.(errCode := m.data.errCode + e))
    case SetCount(n) =>
      var m1 := m.(data := m.data.(count := n));
      m1.(rtc := Save(m1))
  }

  /** The state after a sequence of calls, or None once a call would overflow. */
  function Run(m: Machine, calls: seq<Call>): (r: Option<Machine>)
    requires WellFormed(m)
    ensures r.Some? ==> WellFormed(r.value)
    decreases |calls|
  {
    if calls == [] then Some(m)
    else if !Defined(m, calls[0]) then None
    else Run(Step(m, calls[0]), calls[1..])
  }

  /** No sequence of calls writes any bucket outside the record: in particular
      the SDK's area below RTCMEMORYSTART is never touched. */
  lemma {:induction false} RunChangesOnlyRecord(m: Machine, calls: seq<Call>)
    requires WellFormed(m)
    ensures Run(m, calls).Some? ==> OnlyRecordChanged(m.rtc, Run(m, calls).value.rtc)
    ensures Run(m, calls).Some? ==> Run(m, calls).value.rtc[..RtcMemoryStart] == m.rtc[..RtcMemoryStart]
    decreases |calls|
  {
    if calls != [] && Defined(m, calls[0]) {
      var m1 := Step(m, calls[0]);
      RunChangesOnlyRecord(m1, calls[1..]);
    }
  }

  /** `n` calls of incrementCount. */
  function Increments(n: nat): seq<Call> {
    if n == 0 then [] else [IncrementCount] + Increments(n - 1)
  }

  /** `n` increments raise count by exactly `n` and change nothing else; they
      are defined exactly when count + n does not overflow. */
  lemma {:induction false} IncrementsAddN(m: Machine, n: nat)
    requires WellFormed(m)
    decreases n
    ensures Run(m, Increments(n)) ==
            if InInt32(m.data.count + n) then Some(m.(data := m.data.(count := m.data.count + n)))
            else None
  {
    if n > 0 {
      if InInt32(m.data.count + 1) {
        IncrementsAddN(Step(m, IncrementCount), n - 1);
      }
    }
  }

  /** setError called with each value of `es` in turn. */
  function SetErrors(es: seq<Int32>): seq<Call> {
    if es == [] then [] else [SetError(es[0])] + SetErrors(es[1..])
  }

  function Sum(es: seq<int>): int {
    if es == [] then 0 else es[0] + Sum(es[1..])
  }

  /** Every running total of `es` added to `base` fits a signed int. */
  predicate PartialSumsInRange(base: int, es: seq<Int32>) {
    forall k :: 0 <= k <= |es| ==> InInt32(base + Sum(es[..k]))
  }

  /** setError accumulates: after setError(e1), ..., setError(en) the error code
      is the old one plus e1 + ... + en, and nothing else changed. The calls are
      defined exactly when no running total overflows. */
  lemma {:induction false} SetErrorsAccumulate(m: Machine, es: seq<Int32>)
    requires WellFormed(m)
    ensures Run(m, SetErrors(es)).Some? <==> PartialSumsInRange(m.data.errCode, es)
    ensures Run(m, SetErrors(es)).Some? ==>
            var r := Run(m, SetErrors(es)).value;
            r.data.errCode == m.data.errCode + Sum(es) && r == m.(data := m.data.(errCode := r.data.errCode))
    decreases |es|
  {
    var base := m.data.errCode;
    if es == [] {
      assert es[..0] == [];
    } else {
      assert SetErrors(es)[0] == SetError(es[0]) && SetErrors(es)[1..] == SetErrors(es[1..]);
      assert es[..1] == [es[0]] && Sum([es[0]]) == es[0] + Sum([]);
      if InInt32(base + es[0]) {
        var m1 := Step(m, SetError(es[0]));
        SetErrorsAccumulate(m1, es[1..]);
        forall k | 0 <= k <= |es[1..]|
          ensures Sum(es[..k + 1]) == es[0] + Sum(es[1..][..k])
        {
          assert es[..k + 1][1..] == es[1..][..k];
        }
        if PartialSumsInRange(base, es) {
          forall k | 0 <= k <= |es[1..]|
            ensures InInt32(base + es[0] + Sum(es[1..][..k]))
          {
            assert InInt32(base + Sum(es[..k + 1]));
          }
        }
        if PartialSumsInRange(base + es[0], es[1..]) {
          forall k | 0 <= k <= |es|
            ensures InInt32(base + Sum(es[..k]))
          {
            if k == 0 {
              assert es[..0] == [];
            } else {
              assert InInt32(base + es[0] + Sum(es[1..][..k - 1]));
            }
          }
        }
      } else {
        assert !InInt32(base + Sum(es[..1]));
      }
    }
  }

  /** Two calls of setError, with `a` then `b`, add `a + b` to the error code. */
  lemma SetErrorTwice(m: Machine, a: Int32, b: Int32)
    requires WellFormed(m)
    requires InInt32(m.data.errCode + a) && InInt32(m.data.errCode + a + b)
    ensures Run(m, [SetError(a), SetError(b)]) ==
            Some(m.(data := m.data.(errCode := m.data.errCode + a + b)))
  {
    var es := [a, b];
    assert es[1..] == [b] && es[1..][1..] == [];
    assert SetErrors([b]) == [SetError(b)] + SetErrors([]);
    assert SetErrors(es) == [SetError(a), SetError(b)];
    assert Sum([b]) == b + Sum([]);
    assert es[..1] == [a] && es[..2] == es && es[..0] == [];
    assert Sum(es) == a + b;
    assert Sum(es[..1]) == a;
    SetErrorsAccumulate(m, es);
  }

  /** writeData, then deep sleep (the processor restarts with some record `s`
      in memory while RTC memory keeps its buckets), then readData: count and
      thing come back, errCode and dummy are those of `s`. */
  lemma DeepSleepRoundTrip(r: RtcStore, mem: seq<Int32>, s: RtcStore)
    requires |mem| == RtcBuckets
    ensures var saved := Step(Machine(r, mem), WriteData).rtc;
            Step(Machine(s, saved), ReadData) ==
            Machine(RtcStore(r.count, r.thing, s.errCode, s.dummy), saved)
  {
  }

  /** writeData followed by readData leaves the record as it was. */
  lemma WriteThenReadKeepsRecord(m: Machine)
    requires WellFormed(m)
    ensures Run(m, [WriteData, ReadData]) == Some(Step(m, WriteData))
  {
    DeepSleepRoundTrip(m.data, m.rtc, m.data);
  }

  /** readData then writeData leaves RTC memory as it was exactly when the
      buckets of errCode and dummy already held the in-memory errCode and dummy:
      readData does not load them, writeData stores them. */
  lemma ReadThenWriteKeepsMemoryIff(m: Machine)
    requires WellFormed(m)
    ensures Run(m, [ReadData, WriteData]).Some?
    ensures Run(m, [ReadData, WriteData]).value.rtc == m.rtc <==>
            m.rtc[RtcMemoryStart + 2] == m.data.errCode && m.rtc[RtcMemoryStart + 3] == m.data.dummy
  {
  }

  /** setCount(n) sets count to n, keeps the other fields and leaves the whole
      record stored in its buckets, so a later deep sleep and readData finds
      count == n. */
  lemma SetCountPersists(m: Machine, n: Int32, s: RtcStore)
    requires WellFormed(m)
    ensures var m' := Step(m, SetCount(n));
            m'.data == m.data.(count := n) &&
            m'.rtc[RtcMemoryStart..RtcMemoryStart + StoreFields] == Fields(m'.data) &&
            Step(Machine(s, m'.rtc), ReadData).data.count == n
  {
  }
}
