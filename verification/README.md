# SDIO block device adapter and STM card driver, modelled in Dafny

This project models two pieces of sequential control logic from an embedded SD-card
storage driver:

- **`SDIOBlockDevice`**, the block-device adapter a storage stack calls. It keeps a
  reference count for `init`/`deinit`, so the card is brought up on the first `init` and torn
  down on the last `deinit`. It checks every `read`/`program`/`trim` in a fixed order:
  card present, then device initialised, then request aligned and in bounds. It turns
  byte addresses into 512-byte block numbers and runs each transfer. A synchronous
  build makes one blocking driver call. A DMA build waits for the card, starts the DMA,
  waits for it to finish and waits for the card again; each wait has its own timeout,
  measured with 32-bit tick subtraction. A mutex is held for the whole of every `init`,
  `deinit`, `read`, `program` and `trim`; `size`, `get_read_size`, `get_program_size` and
  `get_type` do not take it.
- **The STM target driver** (`sdio_device.c`). It runs the same wait / start-DMA / wait /
  wait sequence one level down, plus erase-then-wait. It returns `MSD_OK`/`MSD_ERROR`
  and keeps a cache of the card's geometry.

The model is functional. The adapter state is an immutable `Device` record. Every public
call is a pure function from the state and an oracle record to an `Outcome`. An outcome
holds the new state, the status returned, and the log of lock operations and driver calls
made. Anything the hardware answers is an oracle input: card-detect pin level,
driver statuses, card info, card-state and DMA-pending polls, and tick readings.

Each wait loop is modelled over a finite trace. The trace holds the `tickstart` reading,
then one `(polled state, tick)` pair per iteration. The state is polled before the clock
is read, as in the code. If the trace runs out while the loop is still spinning, the
outcome is `Waiting`, with the lock still held.

Modules:

| module | file | models |
|---|---|---|
| `Uint` | `uint.dfy` | `uint8_t`/`uint32_t`/`uint64_t`, conversion to `uint32_t`, wrapping 64-bit addition |
| `SdioApi` | `sdio_api.dfy` | constants and the card-info record of `hal/sdio_api.h` |
| `Ticks` | `ticks.dfy` | elapsed time as unsigned 32-bit `now - tickstart` |
| `Polling` | `polling.dfy` | the timed wait loop, and the wait / issue / wait / wait sequence |
| `StmDevice` | `stm_device.dfy` | `COMPONENT_SDIO/targets/TARGET_STM/sdio_device.c` |
| `SdioBlockDevice` | `sdio_block_device.dfy` | `SDIOBlockDevice.cpp` |
| `SdioBlockDeviceProofs` | `sdio_block_device_proofs.dfy` | properties spanning several adapter calls |

Every public call requires the state invariant `SdioBlockDevice.Valid`: the lock is free,
an initialised device has a positive reference count, and an uninitialised one has no sectors.
`New` establishes it and every call preserves it. It is what keeps `deinit`'s decrement
from going below zero.

Assumptions about code that is not part of this model:

- The inherited validators `is_valid_read` and `is_valid_program` have the same shape as
  `_is_valid_trim`, with unit 512, which is what `get_read_size`/`get_program_size` return.
- `bd_addr_t` and `bd_size_t` are 64-bit unsigned.
- `size()`'s product `_block_size * _sectors` is computed in 64 bits: at least one of the
  two fields is a `bd_size_t`. Both are declared in `SDIOBlockDevice.h`, which is not part
  of this model.
- `BD_ERROR_OK` and `BD_ERROR_DEVICE_ERROR` stay symbolic as fields of `Config`.
  `sdio_init`'s status is compared with `Config.bdOk`, as the code compares it with
  `BD_ERROR_OK`.
- The STM board layer's DMA-start status is a `uint8_t`. Its erase call is modelled as
  "returned `HAL_OK` or not".

## Model

| member | source | states |
|---|---|---|
| `Ticks.Elapsed` | COMPONENT_SDIO/targets/TARGET_STM/sdio_device.c:56 | the unsigned 32-bit difference is the forward distance from the start tick; when the counter has wrapped past zero it goes round once (`now + 2^32 - start`) |
| `Ticks.ElapsedMatchesRealTime` | COMPONENT_SDIO/targets/TARGET_STM/sdio_device.c:52-60 | if the tick counter shows real time mod 2^32 and the two readings are less than one counter period apart, the computed elapsed time equals the real elapsed time, across a wrap too |
| `Ticks.ElapsedAliasesAfterFullPeriod` | COMPONENT_SDIO/targets/TARGET_STM/sdio_device.c:56 | after a full counter period the computed elapsed time is 0, so the guarantee holds for one wrap and no further |
| `Polling.WaitFrom` | components/storage/blockdevice/COMPONENT_SDIO/SDIOBlockDevice.cpp:181-188 | the loop leaves at the first iteration that either sees the card ready or sees the window elapsed; it reports which, and every iteration before that one saw a busy card inside the window |
| `Polling.Wait` | components/storage/blockdevice/COMPONENT_SDIO/SDIOBlockDevice.cpp:197-203 | the same characterisation for a whole wait loop, measured from that loop's own `tickstart` |
| `Polling.WaitLoop` | COMPONENT_SDIO/targets/TARGET_STM/sdio_device.c:69-76 | the imperative loop (poll, leave if ready, read clock, leave if expired) computes exactly the result of the recursive definition |
| `Polling.ReadyOnFirstPollNeverTimesOut` | COMPONENT_SDIO/targets/TARGET_STM/sdio_device.c:53-60 | the state is polled before the clock, so a card ready on the first poll leaves the loop ready, even with a zero timeout |
| `Polling.ZeroTimeoutExpiresOnFirstBusyPoll` | COMPONENT_SDIO/targets/TARGET_STM/sdio_device.c:53-58 | with a zero timeout, a card busy on the first poll times out on that poll |
| `Polling.AlwaysBusyNeverReady` | COMPONENT_SDIO/targets/TARGET_STM/sdio_device.c:53-60 | a card that answers anything but `SD_TRANSFER_OK` (such as `SD_TRANSFER_BUSY`) at every poll never lets the loop report ready: it times out or is still spinning when the trace ends |
| `Polling.TimeoutOnlyAfterWindow` | components/storage/blockdevice/COMPONENT_SDIO/SDIOBlockDevice.cpp:184 | with real time within one counter period, a timeout happens only at a busy poll taken once the real window has elapsed; every earlier poll was busy and inside the window |
| `Polling.TimeoutByEndOfWindow` | COMPONENT_SDIO/targets/TARGET_STM/sdio_device.c:82 | a card that stays busy through a poll taken after the window elapsed (within one period) has timed the loop out by that poll; the loop cannot spin past the window |
| `Polling.Sequence` | components/storage/blockdevice/COMPONENT_SDIO/SDIOBlockDevice.cpp:178-217 | the transfer is issued exactly when the first wait sees ready; the sequence completes exactly when the issue is accepted and all three waits see ready; a rejected issue ends the sequence without waiting; it times out (or its trace runs out) in a given wait exactly when every earlier wait saw ready, the issue was accepted if that wait comes after it, and that wait expired (or ran out) |
| `StmDevice.InitRefreshesGeometry` | COMPONENT_SDIO/targets/TARGET_STM/sdio_device.c:17-29 | `Init` returns the board layer's state unchanged and always refreshes the cache, so the getters `GetBlockSize`/`GetBlockCount` (`SDIO_Device_GetBlockSize`/`SDIO_Device_GetBlockCount`, lines 179-191) then answer `BlockSize`/`BlockNbr` of the card just reported, with no hardware call |
| `StmDevice.TransferBlocks` | COMPONENT_SDIO/targets/TARGET_STM/sdio_device.c:48-90 | `SDIO_Device_ReadBlocks` and `SDIO_Device_WriteBlocks` (lines 100-141 have the same shape), which `ReadBlocks`/`WriteBlocks` model as `TransferBlocks` with `Reading`/`Writing`: first wait expires ⇒ MSD_ERROR and no DMA started; card ready ⇒ exactly one DMA start with the caller's address and count; DMA start failure returned unchanged with no further wait; MSD_OK exactly when the DMA starts and all three waits see ready; after a successful start, the first later wait that does not see ready decides: MSD_ERROR with the one DMA start logged if it expires, still waiting if its trace runs out |
| `StmDevice.ReadyCardNeedsNoTime` | COMPONENT_SDIO/targets/TARGET_STM/sdio_device.c:50-89 | a card ready at the first poll of each wait gives MSD_OK with one DMA start, even with `Timeout = 0` |
| `StmDevice.Erase` | COMPONENT_SDIO/targets/TARGET_STM/sdio_device.c:150-173 | one HAL erase call with the given addresses; HAL failure ⇒ MSD_ERROR without waiting; MSD_OK exactly when the HAL accepts and the card then becomes ready; the wait expiring ⇒ MSD_ERROR |
| `SdioBlockDevice.New` | components/storage/blockdevice/COMPONENT_SDIO/SDIOBlockDevice.cpp:62-70 | a new adapter keeps the card-detect wiring it was given, is uninitialised, holds no reference, and has size 0; it satisfies the state invariant |
| `SdioBlockDevice.IsPresent` | components/storage/blockdevice/COMPONENT_SDIO/SDIOBlockDevice.cpp:383-390 | a card counts as present exactly when no card-detect pin is wired or the pin reads 0 |
| `SdioBlockDevice.Size` | components/storage/blockdevice/COMPONENT_SDIO/SDIOBlockDevice.cpp:366-369 | the size is a whole number of 512-byte blocks equal to the sector count, fits in 64 bits for every reachable state, and is 0 while uninitialised |
| `SdioBlockDevice.AlignedInBoundsAsWritten` | components/storage/blockdevice/COMPONENT_SDIO/SDIOBlockDevice.cpp:375-381 | `_is_valid_trim` as written, with `addr + size` wrapping on `uint64_t`: it accepts every request the exact check accepts and, besides those, exactly the aligned requests whose true end reaches 2^64 and wraps to at most `size()` |
| `SdioBlockDevice.ValidRangeWithinSectors` | components/storage/blockdevice/COMPONENT_SDIO/SDIOBlockDevice.cpp:375-381 | under the exact bounds check (`AlignedInBounds`; see Findings for the check as written), an aligned, in-bounds request covers blocks `addr/512 .. addr/512 + size/512`, which lie within the sector count; both numbers fit the driver's `uint32_t` parameters unchanged |
| `SdioBlockDevice.Init` | components/storage/blockdevice/COMPONENT_SDIO/SDIOBlockDevice.cpp:79-123 | initialised device ⇒ count + 1, OK, no driver call; otherwise the count restarts at 1 and: no card ⇒ NO_DEVICE with no driver call; `sdio_init` failure ⇒ DEVICE_ERROR; in both failure cases the device stays uninitialised; success ⇒ initialised, with the sectors and card info the card reported; the result is OK, or UNSUPPORTED_BLOCKSIZE (still initialised) when the block size is not 512; the lock is released on every path and the invariant is kept |
| `SdioBlockDevice.Deinit` | components/storage/blockdevice/COMPONENT_SDIO/SDIOBlockDevice.cpp:125-150 | uninitialised ⇒ count reset to 0, OK, no driver call; count above 1 ⇒ count − 1, OK, no driver call; last reference ⇒ one `sdio_deinit`, device uninitialised with 0 sectors whatever the driver answered, and the driver's status returned |
| `SdioBlockDevice.Destroy` | components/storage/blockdevice/COMPONENT_SDIO/SDIOBlockDevice.cpp:72-77 | the destructor makes no call on an uninitialised device; on an initialised one it logs exactly `lock, sdio_deinit, unlock` when it held the last reference and `lock, unlock` otherwise |
| `SdioBlockDevice.Reject` | components/storage/blockdevice/COMPONENT_SDIO/SDIOBlockDevice.cpp:156-169 | a failed check unlocks and returns its code with no driver call between `lock` and `unlock` |
| `SdioBlockDevice.SyncTransfer` | components/storage/blockdevice/COMPONENT_SDIO/SDIOBlockDevice.cpp:218-225 | synchronous build: exactly one blocking driver call with the block and count; MSD_OK if it succeeds, READ_BLOCKS / WRITE_BLOCKS for any other status; the lock is released |
| `SdioBlockDevice.AsyncTransfer` | components/storage/blockdevice/COMPONENT_SDIO/SDIOBlockDevice.cpp:258-296 | DMA build: the DMA start is the only driver call, made exactly when the first wait sees ready; MSD_OK exactly when the sequence completes, READ_BLOCKS / WRITE_BLOCKS on every other return; still inside a wait only when a trace ran out |
| `SdioBlockDevice.AcceptedTransfer` | components/storage/blockdevice/COMPONENT_SDIO/SDIOBlockDevice.cpp:171-176 | under the exact bounds check, an accepted request reaches the driver as block `addr/512` and count `size/512`, inside the card and not truncated to 32 bits |
| `SdioBlockDevice.Transfer` | components/storage/blockdevice/COMPONENT_SDIO/SDIOBlockDevice.cpp:152-310 | `read` (:152-230) and `program` (:232-310), which `Read`/`Program` model as `Transfer` with `Reading`/`Writing`: checks in order (no card ⇒ NO_DEVICE, uninitialised ⇒ NO_INIT, misaligned or out of bounds by the exact check ⇒ PARAMETER), each with no driver call; accepted requests map to the synchronous or DMA result; the lock is taken once and released once on every return; the device state never changes |
| `SdioBlockDevice.Trim` | components/storage/blockdevice/COMPONENT_SDIO/SDIOBlockDevice.cpp:312-354 | the same ordered checks (bounds by the exact check) with no driver call on failure; an accepted trim logs exactly `lock, sdio_erase(addr/512, size/512)` and, on return, `unlock`, inside the card; non-zero erase status ⇒ ERASE_BLOCKS without waiting; otherwise 0 in the synchronous build, and in the DMA build 0 when the card becomes ready, ERASE_BLOCKS when the wait expires; the lock is released on every return |
| `SdioBlockDeviceProofs.InitTimesWhileInitialized` | components/storage/blockdevice/COMPONENT_SDIO/SDIOBlockDevice.cpp:85-94 | on an initialised device, k more inits raise the count by k and make no hardware init or deinit |
| `SdioBlockDeviceProofs.DeinitTimesToZero` | components/storage/blockdevice/COMPONENT_SDIO/SDIOBlockDevice.cpp:136-149 | as many deinits as references leave the device uninitialised, count 0, sectors 0, with exactly one `sdio_deinit` and no `sdio_init` |
| `SdioBlockDeviceProofs.BalancedInitDeinit` | components/storage/blockdevice/COMPONENT_SDIO/SDIOBlockDevice.cpp:79-150 | N ≥ 1 inits (the first succeeding) then N deinits make exactly one hardware init and one hardware deinit, and end uninitialised with count 0 and no sectors |
| `SdioBlockDeviceProofs.FailedInitsStayRetryable` | components/storage/blockdevice/COMPONENT_SDIO/SDIOBlockDevice.cpp:85-105 | any run of failed inits (no card, or `sdio_init` failing) leaves the device uninitialised with one stale reference |
| `SdioBlockDeviceProofs.FailedInitIsRetried` | components/storage/blockdevice/COMPONENT_SDIO/SDIOBlockDevice.cpp:85-101 | after failed inits, the next init with a card present calls `sdio_init` again; on success the device holds exactly one reference |
| `SdioBlockDeviceProofs.SizeFollowsInit` | components/storage/blockdevice/COMPONENT_SDIO/SDIOBlockDevice.cpp:107-118 | `size()` is 0 before init and 512 × the logical block count after a successful `sdio_init`, whatever block size the card reports; the getters `GetReadSize`/`GetProgramSize` (`get_read_size`/`get_program_size`, lines 356-364) answer 512 |
| `SdioBlockDeviceProofs.MillionBlockCard` | components/storage/blockdevice/COMPONENT_SDIO/SDIOBlockDevice.cpp:366-369 | a card of 1 000 000 blocks of 512 bytes initialises with OK and gives `size()` = 512 000 000 |
| `SdioBlockDeviceProofs.NothingBeforeInit` | components/storage/blockdevice/COMPONENT_SDIO/SDIOBlockDevice.cpp:156-164 | before a successful init every read, program and trim returns NO_DEVICE or NO_INIT with no driver call |
| `SdioBlockDeviceProofs.WrappedRequestPassesAsWrittenCheck` | components/storage/blockdevice/COMPONENT_SDIO/SDIOBlockDevice.cpp:375-381 | the bounds check as written, with a wrapping 64-bit `addr + size`, accepts a one-block request at address 2^64 − 512 on an 8-sector card; that request's block index is far beyond the card and becomes 2^32 − 1 when passed to the driver; the exact check rejects it |
| `SdioBlockDeviceProofs.WrappedTrimIsRejected` | components/storage/blockdevice/COMPONENT_SDIO/SDIOBlockDevice.cpp:326-334 | at the level of `trim`: the check as written accepts the wrapped request and would pass `sdio_erase` block 2^32 − 1 and count 1, while the model's `trim` returns PARAMETER with no driver call |
| `SdioBlockDeviceProofs.ChecksAgreeWithoutOverflow` | components/storage/blockdevice/COMPONENT_SDIO/SDIOBlockDevice.cpp:375-381 | wherever `addr + size` does not overflow 64 bits, the check as written and the exact check agree |

## Findings

| source | as written | input that shows it | evidently intended | confidence | as-written member | corrected member |
|---|---|---|---|---|---|---|
| components/storage/blockdevice/COMPONENT_SDIO/SDIOBlockDevice.cpp:375-381 | `addr + size <= this->size()` adds two 64-bit unsigned values, which wraps. The inherited `is_valid_read`/`is_valid_program`, assumed to have the same shape, would share this. | initialised 8-sector card, `addr = 2^64 − 512`, `size = 512`: the wrapped end is 0 ≤ 4096, so the request is accepted and `sdio_erase` (or a transfer) receives block index 2^32 − 1 | accept only requests whose real end lies inside the device | medium: relies on `bd_addr_t`/`bd_size_t` being 64-bit unsigned, which a header that is not part of this model defines; not executed | `SdioBlockDevice.AlignedInBoundsAsWritten`, exhibited by `SdioBlockDeviceProofs.WrappedRequestPassesAsWrittenCheck` and `SdioBlockDeviceProofs.WrappedTrimIsRejected` | `SdioBlockDevice.AlignedInBounds` (exact sum), used by `IsValidRead`/`IsValidProgram`/`IsValidTrim`, with `SdioBlockDevice.ValidRangeWithinSectors` proved about it |

The adapter calls `sdio_erase(addr / 512, block_count)` (line 334). The driver interface
documents these two parameters as a start and an end byte address (`hal/sdio_api.h:130-136`).
The model keeps the call as written: `SdioBlockDevice.Trim` logs `SdioErase(block index,
block count)`. Nothing in the model gives those numbers the byte-address meaning.

## Behaviour worth noting

The code behaves as follows, and the model follows it:

- A failed `init` leaves `initialized` false but the reference count at 1, so a positive
  count does not mean the device is initialised. The next `init` still reaches the hardware,
  because `init` resets the count of an uninitialised device
  (`FailedInitsStayRetryable`, `FailedInitIsRetried`).
- A card reporting 0 logical blocks leaves the device initialised with 0 sectors. No
  invariant says an initialised device has more than 0 sectors: `SdioBlockDevice.Valid`
  only ties an initialised device's sectors to the logical block count the card reported.
- The destructor calls `deinit` once. With more than one outstanding reference, that only
  decrements the count and the hardware stays initialised (`SdioBlockDevice.Destroy`).
- `init` on a device that is already initialised returns OK before it checks for a card,
  so a card removed after the first `init` is not noticed by later `init`s (`SdioBlockDevice.Init`).
- The synchronous and DMA transfer paths return `MSD_OK` (0) on success, not `BD_ERROR_OK`.
  A successful trim returns the erase status 0.

## Left out

- SdioBlockDevice.Size: the product is exact, so its 64-bit bound rests on the width
  assumption above. If both `_block_size` and `_sectors` were 32-bit, any card of 4 GiB or
  more would wrap; that wrap is not modelled.
- SdioBlockDevice.Transfer: uses the exact bounds check; the wrapping check as written is
  `AlignedInBoundsAsWritten` (see Findings).
- SdioBlockDevice.AcceptedTransfer: uses the exact bounds check; the wrapping check as
  written is `AlignedInBoundsAsWritten` (see Findings).
- SdioBlockDevice.Trim: uses the exact bounds check; the wrapping check as written is
  `AlignedInBoundsAsWritten` (see Findings, and `WrappedTrimIsRejected`).

- Buffer contents and DMA data movement. The log records driver-call arguments and
  statuses, not bytes, so the write-then-read round trip is not stated.
- Mutex semantics between threads. The lock is a `lockHeld` flag plus `Lock`/`Unlock`
  entries in the call log.
- Polls of `sdio_get_card_state`/`sdio_*_pending`/`SD_GetCardState`/`SD_DMA_*Pending`, and
  reads of `us_ticker_read`/`HAL_GetTick`. These are oracle trace entries and are not
  logged as calls.
- Timeout units (µs for the adapter, ms for the STM driver) and the configured default.
  The timeout is an abstract `uint32_t` parameter.
- A wait loop that spins forever. The model sees only finite traces, and a trace that ends
  inside a loop gives `Waiting`, not a return.
- `get_type()`, `debug()` and `debug_if` logging: they return a constant, do nothing, or
  print.
- `SDIO_Device_DeInit`: it only forwards the board layer's status.
- The NXP target's `sdio_api.c`: pin muxing, register writes and vendor SDK calls.
- `sdio_device.h`: it only declares. Its status and transfer-state constants have the
  same values as those taken from `hal/sdio_api.h`.
- The width of `_init_ref_count`. The header that declares it is not part of this model,
  so the count is a `nat`. Wrap-around after 2^32 outstanding inits is not modelled.
- The initial contents of the adapter's `_card_info`. The code never reads them before
  the first successful init, so the model fills in zeros.
