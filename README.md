# Persistent run store of the weather station (rtcMemory.h)

The weather station's firmware wakes from deep sleep, does one measure-and-post
cycle and goes back to sleep. The only state carried across that boundary is a
small record kept in the ESP8266's RTC memory. `rtcMemory.h` defines that record
(`rtcStore`: `count`, `thing`, `errCode`, `dummy`, four `int`s), a global copy
of it (`myData`), and the class `rtcMemory`, whose methods copy the record
between `myData` and RTC memory from bucket `RTCMEMORYSTART` = 65 onwards, and
read or update single fields.

This project models that header in Dafny:

- `RtcLayout` (rtc_layout.dfy): the constants (bucket 65, 4-byte buckets,
  4-byte `int`, 16-byte record, the 8 bytes `readData` asks for, 192 buckets of
  RTC memory), 32-bit `int`, the record, its image as one bucket per field in
  declaration order, and the two whole-bucket copies the SDK performs
  (`Overlay` for a read into the start of the record, `MemWrite` for a write).
- `RtcSemantics` (rtc_semantics.dfy): what each state-changing call does, as a
  pure function `Step` on the pair (record, RTC memory), `Run` for a sequence
  of calls, and the lemmas about sequences of calls and deep sleep.
- `Rtc` (rtc_memory.dfy): the class `RtcMemory`, with `myData` as a field of
  type `RtcStore` and RTC memory as an `array<Int32>` of buckets; each method
  updates them in place and says exactly which fields or buckets change. The
  five state-changing methods (`ReadData`, `WriteData`, `IncrementCount`,
  `SetError`, `SetCount`) are also proved to agree with `Step`; `Count` and
  `Error` change nothing.

Deep sleep is modelled as a fresh object: RTC memory keeps its buckets, and
`myData`, which has static storage, starts as all zeros.

Two behaviours of the code are modelled as written:

- `readData` asks for 8 bytes (rtcMemory.h:45), so it restores `count` and
  `thing` only, while `writeData` stores all 16 bytes (rtcMemory.h:50). After a
  deep sleep `errCode` and `dummy` therefore read as 0 whatever was saved
  (`DeepSleepRoundTrip`), and readData followed by writeData leaves RTC memory
  unchanged only when buckets 67 and 68 already held `errCode` and `dummy`
  (`ReadThenWriteKeepsMemoryIff`).
- `setError` adds to the error code (`+=`, rtcMemory.h:68); it never
  overwrites it, so calls accumulate (`SetErrorsAccumulate`).

## Model

| member | source | states |
|---|---|---|
| `RtcLayout.FromFields` | rtcMemory.h:23-28 | the record built from four buckets has exactly those buckets as its image, field k in bucket k |
| `RtcLayout.FieldsInjective` | rtcMemory.h:23-28 | two records with the same bucket image are equal, so the image determines the record |
| `RtcLayout.Overlay` | rtcMemory.h:45 | an SDK read of n buckets into the record replaces its first n fields with those buckets and keeps the others |
| `RtcLayout.MemWrite` | rtcMemory.h:50 | an SDK write stores the buckets from the given address and leaves every other bucket as it was |
| `RtcSemantics.Step` | rtcMemory.h:44-76 | no call changes a bucket outside 65..68, and RTC memory keeps its size |
| `RtcSemantics.FieldInItsBucket` | rtcMemory.h:8-28 | every byte of field k, counted from bucket 65, lies in bucket 65 + k (no field crosses a bucket boundary), writeData stores field k in that bucket and readData loads count and thing from theirs |
| `RtcSemantics.RunChangesOnlyRecord` | rtcMemory.h:44-52 | any sequence of calls leaves every bucket outside 65..68 unchanged, in particular the SDK's buckets below 65 |
| `RtcSemantics.IncrementsAddN` | rtcMemory.h:58-61 | n calls of incrementCount raise count by exactly n and change nothing else, and are defined exactly when count + n fits an int |
| `RtcSemantics.SetErrorsAccumulate` | rtcMemory.h:67-70 | setError with e1..en leaves errCode = old errCode + e1 + ... + en and nothing else changed; defined exactly when no running total overflows |
| `RtcSemantics.SetErrorTwice` | rtcMemory.h:67-70 | setError(a) then setError(b) gives errCode = old + a + b, all else unchanged |
| `RtcSemantics.DeepSleepRoundTrip` | rtcMemory.h:44-52 | writeData from record r, deep sleep, readData into any record s gives (r.count, r.thing, s.errCode, s.dummy) and leaves RTC memory as written |
| `RtcSemantics.WriteThenReadKeepsRecord` | rtcMemory.h:44-52 | writeData followed by readData leaves the in-memory record identical |
| `RtcSemantics.ReadThenWriteKeepsMemoryIff` | rtcMemory.h:44-52 | readData followed by writeData leaves RTC memory unchanged if and only if buckets 67 and 68 already held the in-memory errCode and dummy |
| `RtcSemantics.SetCountPersists` | rtcMemory.h:72-76 | setCount(n) sets count to n, keeps the other fields, leaves buckets 65..68 equal to the whole record, and a later deep sleep and readData finds count n |
| `Rtc.RtcMemory.constructor` | rtcMemory.h:30 | at the start of a cycle myData is all zeros and RTC memory is what the previous cycle left |
| `Rtc.RtcMemory.SystemRtcMemRead` | rtcMemory.h:45 | the SDK read copies whole buckets over the start of myData and changes nothing else |
| `Rtc.RtcMemory.SystemRtcMemWrite` | rtcMemory.h:50 | the SDK write copies the first buckets of myData into RTC memory at the address and changes no other bucket |
| `Rtc.RtcMemory.ReadData` | rtcMemory.h:44-47 | count and thing become buckets 65 and 66; errCode, dummy and RTC memory are unchanged |
| `Rtc.RtcMemory.WriteData` | rtcMemory.h:49-52 | buckets 65..68 become count, thing, errCode, dummy; no other bucket and not myData changes |
| `Rtc.RtcMemory.Count` | rtcMemory.h:54-56 | returns myData.count and changes nothing |
| `Rtc.RtcMemory.IncrementCount` | rtcMemory.h:58-61 | count goes up by exactly one; thing, errCode, dummy and all buckets are unchanged |
| `Rtc.RtcMemory.Error` | rtcMemory.h:63-65 | returns myData.errCode and changes nothing |
| `Rtc.RtcMemory.SetError` | rtcMemory.h:67-70 | errCode becomes old errCode + error; the other fields and all buckets are unchanged |
| `Rtc.RtcMemory.SetCount` | rtcMemory.h:72-76 | count becomes newValue, the other fields are kept, buckets 65..68 hold the whole new record and no other bucket changes |

## Left out

- The SDK functions `system_rtc_mem_read` and `system_rtc_mem_write` and `user_interface.h` are foreign code; they are modelled only as whole-bucket copies, and their boolean result, which the header ignores, is not modelled (the header always passes in-range constants, which the copies require).
- The `yield()` calls hand control to the cooperative scheduler and do not touch the data; they are left out.
- Retention across deep sleep but not power loss, and the observed failure around bucket 184, are hardware behaviour; RTC memory is a fixed array of 192 buckets.
- The commented-out constructor that called `readData` is dead code and is not modelled.
- Rtc.RtcMemory.IncrementCount: signed overflow of `count++` is undefined behaviour in C++, so the model requires that it does not happen instead of modelling wrap-around.
- Rtc.RtcMemory.SetError: signed overflow of `errCode += error` is undefined behaviour in C++, so the model requires that it does not happen instead of modelling wrap-around.
- `myData` is one global shared by every `rtcMemory` object; here it is a field of the object and the constructor zeroes it, so the model assumes one object per wake cycle, created at program start (a second object created mid-cycle would reset the record in the model but not in the program).
- The sensor, WiFi, HTTP and run-cycle sketch code that call this class are not part of this model.
